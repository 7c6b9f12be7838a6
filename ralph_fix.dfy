/**
 * The extraction half of RalphLoop::requestAiFix: turning the model's reply
 * into the code to write back, or into nothing. The reply is searched for
 * the first php-fenced code block with the PCRE pattern
 * /```php\s*(.*?)\s*```/s; failing that, a reply that is itself PHP source
 * is taken whole; anything else, and any failed request, gives no fix.
 */
module RalphFix {
  import opened Wrappers
  import opened PhpStrings

  /** The outcome of the messages request: the text of the first content block ('' when it has none), or a thrown error. */
  datatype AiResponse = Reply(text: string) | TransportFailure

  /** Three backticks start at i. */
  predicate FenceAt(s: string, i: nat) {
    i + 3 <= |s| && s[i] == '`' && s[i + 1] == '`' && s[i + 2] == '`'
  }

  /** The opening fence ```php starts at i. */
  predicate PhpFenceAt(s: string, i: nat) {
    FenceAt(s, i) && i + 6 <= |s| && s[i + 3] == 'p' && s[i + 4] == 'h' && s[i + 5] == 'p'
  }

  predicate StartsWith(s: string, prefix: string) {
    |prefix| <= |s| && s[..|prefix|] == prefix
  }

  /**
   * Where the lazy group (.*?) that starts at `from` ends: the least end e at
   * which the trailing \s* reaches a closing fence.
   */
  function LazyEnd(s: string, from: nat): (r: Option<nat>)
    requires from <= |s|
    ensures r.Some? ==> from <= r.value <= |s| && FenceAt(s, SpaceEnd(s, r.value))
    ensures r.Some? ==> forall e :: from <= e < r.value ==> !FenceAt(s, SpaceEnd(s, e))
    ensures r.None? ==> forall e :: from <= e <= |s| ==> !FenceAt(s, SpaceEnd(s, e))
    decreases |s| - from
  {
    if FenceAt(s, SpaceEnd(s, from)) then Some(from)
    else if from == |s| then None
    else LazyEnd(s, from + 1)
  }

  /** The pattern matches starting at i. */
  predicate MatchesAt(s: string, i: nat) {
    PhpFenceAt(s, i) && LazyEnd(s, SpaceEnd(s, i + 6)).Some?
  }

  /** The leftmost position at or after `from` where the pattern matches. */
  function FirstMatch(s: string, from: nat): (r: Option<nat>)
    requires from <= |s|
    ensures r.Some? ==> from <= r.value && MatchesAt(s, r.value)
    ensures r.Some? ==> forall i :: from <= i < r.value ==> !MatchesAt(s, i)
    ensures r.None? ==> forall i :: from <= i ==> !MatchesAt(s, i)
    decreases |s| - from
  {
    if MatchesAt(s, from) then Some(from)
    else if from == |s| then None
    else FirstMatch(s, from + 1)
  }

  /** The first capture group of the fenced-block pattern, or None when the pattern does not match. */
  function FencedCode(s: string): Option<string> {
    match FirstMatch(s, 0)
    case None => None
    case Some(i) =>
      var q := SpaceEnd(s, i + 6);
      Some(s[q..LazyEnd(s, q).value])
  }

  /** The fix requestAiFix returns for a response. */
  function ExtractFix(response: AiResponse): Option<string> {
    match response
    case TransportFailure => None
    case Reply(text) =>
      if FencedCode(text).Some? then FencedCode(text)
      else if StartsWith(Trim(text), "<?php") then Some(Trim(text))
      else None
  }

  // ---------------------------------------------------------------------
  // When the pattern matches
  // ---------------------------------------------------------------------

  /** A white-space run from k stops at the first non-space character m at or after k. */
  lemma SpaceEndBefore(s: string, k: nat, m: nat)
    requires k <= m < |s| && !IsPcreSpace(s[m])
    ensures SpaceEnd(s, k) <= m
  {
  }

  /** An opening fence followed, six or more characters later, by three backticks starts a match. */
  lemma MatchAt(s: string, i: nat, j: nat)
    requires PhpFenceAt(s, i) && i + 6 <= j && FenceAt(s, j)
    ensures MatchesAt(s, i)
  {
    assert !IsPcreSpace(s[j]);
    SpaceEndAt(s, j, j);
    assert FenceAt(s, SpaceEnd(s, j));
  }

  /** A match is closed by three backticks at least six characters after its start. */
  lemma MatchCloses(s: string, i: nat) returns (j: nat)
    requires MatchesAt(s, i)
    ensures i + 6 <= j && FenceAt(s, j)
  {
    var e := LazyEnd(s, SpaceEnd(s, i + 6)).value;
    j := SpaceEnd(s, e);
  }

  /** The pattern matches iff some ```php is followed, six or more characters on, by ```. */
  lemma FencedCodeExists(s: string)
    ensures FencedCode(s).Some? <==>
      exists i: nat, j: nat {:trigger PhpFenceAt(s, i), FenceAt(s, j)} :: PhpFenceAt(s, i) && i + 6 <= j && FenceAt(s, j)
  {
    if FencedCode(s).Some? {
      var i := FirstMatch(s, 0).value;
      var j := MatchCloses(s, i);
      assert PhpFenceAt(s, i) && FenceAt(s, j);
    }
    if exists i: nat, j: nat {:trigger PhpFenceAt(s, i), FenceAt(s, j)} :: PhpFenceAt(s, i) && i + 6 <= j && FenceAt(s, j) {
      var i: nat, j: nat :| PhpFenceAt(s, i) && i + 6 <= j && FenceAt(s, j);
      MatchAt(s, i, j);
    }
  }

  /** Two opening fences never overlap. */
  lemma FencesApart(s: string, a: nat, b: nat)
    requires PhpFenceAt(s, a) && PhpFenceAt(s, b) && a < b
    ensures a + 6 <= b
  {
    assert s[a + 3] == 'p' && s[a + 4] == 'h' && s[a + 5] == 'p';
    assert s[b] == '`' && s[b + 1] == '`' && s[b + 3] == 'p';
  }

  /**
   * When the pattern matches, the match opens at the first ```php of the
   * reply; the group begins after the white space that follows it and ends
   * at the first place from which only white space leads to a ```.
   */
  lemma FencedCodeShape(s: string) returns (i: nat, q: nat, e: nat)
    requires FencedCode(s).Some?
    ensures PhpFenceAt(s, i) && forall k: nat :: k < i ==> !PhpFenceAt(s, k)
    ensures i + 6 <= q <= e <= |s|
    ensures forall k :: i + 6 <= k < q ==> IsPcreSpace(s[k])
    ensures q == |s| || !IsPcreSpace(s[q])
    ensures FenceAt(s, SpaceEnd(s, e))
    ensures forall k :: q <= k < e ==> !FenceAt(s, SpaceEnd(s, k))
    ensures FencedCode(s) == Some(s[q..e])
  {
    i := FirstMatch(s, 0).value;
    q := SpaceEnd(s, i + 6);
    e := LazyEnd(s, q).value;
    forall k: nat | k < i
      ensures !PhpFenceAt(s, k)
    {
      if PhpFenceAt(s, k) {
        FencesApart(s, k, i);
        MatchAt(s, k, i);
        assert false;
      }
    }
  }

  // ---------------------------------------------------------------------
  // The three kinds of reply
  // ---------------------------------------------------------------------

  /** A reply without backticks has no fenced block. */
  lemma NoBackticksNoMatch(s: string)
    requires forall k :: 0 <= k < |s| ==> s[k] != '`'
    ensures FencedCode(s).None?
  {
    forall i: nat | i < |s|
      ensures !MatchesAt(s, i)
    {
      assert s[i] != '`';
    }
  }

  /** The layout of a fenced reply, character by character. */
  lemma FencedLayout(pre: string, code: string, post: string)
    ensures var s := pre + "```php\n" + code + "\n```" + post;
      var n := |pre|;
      var m := n + 7 + |code|;
      |s| == m + 4 + |post|
      && (forall k :: 0 <= k < n ==> s[k] == pre[k])
      && PhpFenceAt(s, n) && s[n + 6] == '\n'
      && (forall k :: 0 <= k < |code| ==> s[n + 7 + k] == code[k])
      && s[m] == '\n' && FenceAt(s, m + 1)
      && s[n + 7..m] == code
  {
    var s := pre + "```php\n" + code + "\n```" + post;
    var n := |pre|;
    var m := n + 7 + |code|;
    assert s == pre + ("```php\n" + code + "\n```" + post);
    assert s[n..] == "```php\n" + code + "\n```" + post;
    assert s[n + 7..] == code + "\n```" + post;
    assert s[m..] == "\n```" + post;
    assert s[n + 7..m] == s[n + 7..][..|code|];
  }

  /**
   * A reply that wraps code in a php-fenced block, after prose without
   * backticks, yields exactly that code, whatever follows the block.
   */
  lemma FencedReply(pre: string, code: string, post: string)
    requires forall k :: 0 <= k < |pre| ==> pre[k] != '`'
    requires forall k :: 0 <= k < |code| ==> code[k] != '`'
    requires code == [] || (!IsPcreSpace(code[0]) && !IsPcreSpace(code[|code| - 1]))
    ensures ExtractFix(Reply(pre + "```php\n" + code + "\n```" + post)) == Some(code)
  {
    var s := pre + "```php\n" + code + "\n```" + post;
    var n := |pre|;
    FencedLayout(pre, code, post);
    FencedCodeAt(s, n, code);
  }

  /** The group of a block that opens at n after backtick-free text. */
  lemma FencedCodeAt(s: string, n: nat, code: string)
    requires n <= |s| && forall k :: 0 <= k < n ==> s[k] != '`'
    requires n + 7 + |code| + 4 <= |s|
    requires PhpFenceAt(s, n) && s[n + 6] == '\n'
    requires forall k :: 0 <= k < |code| ==> s[n + 7 + k] == code[k] && code[k] != '`'
    requires s[n + 7..n + 7 + |code|] == code
    requires s[n + 7 + |code|] == '\n' && FenceAt(s, n + 8 + |code|)
    requires code == [] || (!IsPcreSpace(code[0]) && !IsPcreSpace(code[|code| - 1]))
    ensures FencedCode(s) == Some(code)
  {
    Group(s, n, code);
    OpensFirst(s, n);
  }

  /** An opening fence with a closing one after it, and no backtick before it, is where the match starts. */
  lemma OpensFirst(s: string, n: nat)
    requires n <= |s| && forall k :: 0 <= k < n ==> s[k] != '`'
    requires MatchesAt(s, n)
    ensures FirstMatch(s, 0) == Some(n)
  {
    forall k: nat | k < n
      ensures !MatchesAt(s, k)
    {
      assert s[k] != '`';
    }
  }

  /**
   * Opening at n, a block whose code has no backticks and no white space at
   * either end, then a newline and a closing fence: the group is the code.
   */
  lemma Group(s: string, n: nat, code: string)
    requires n + 7 + |code| + 4 <= |s|
    requires PhpFenceAt(s, n) && s[n + 6] == '\n'
    requires forall k :: 0 <= k < |code| ==> s[n + 7 + k] == code[k] && code[k] != '`'
    requires s[n + 7..n + 7 + |code|] == code
    requires s[n + 7 + |code|] == '\n' && FenceAt(s, n + 8 + |code|)
    requires code == [] || (!IsPcreSpace(code[0]) && !IsPcreSpace(code[|code| - 1]))
    ensures var q := SpaceEnd(s, n + 6);
      LazyEnd(s, q).Some? && s[q..LazyEnd(s, q).value] == code
  {
    var m := n + 7 + |code|;
    SpaceEndAt(s, m, m + 1);
    if code == [] {
      SpaceEndAt(s, n + 6, m + 1);
      SpaceEndAt(s, m + 1, m + 1);
      assert LazyEnd(s, m + 1) == Some(m + 1);
      assert s[m + 1..m + 1] == code;
    } else {
      CodeGroup(s, n, code);
    }
  }

  /** The non-empty case of Group: the lazy group ends right after the code. */
  lemma CodeGroup(s: string, n: nat, code: string)
    requires n + 7 + |code| + 4 <= |s| && code != []
    requires s[n + 6] == '\n'
    requires forall k :: 0 <= k < |code| ==> s[n + 7 + k] == code[k] && code[k] != '`'
    requires s[n + 7 + |code|] == '\n' && FenceAt(s, n + 8 + |code|)
    requires !IsPcreSpace(code[0]) && !IsPcreSpace(code[|code| - 1])
    ensures SpaceEnd(s, n + 6) == n + 7 && LazyEnd(s, n + 7) == Some(n + 7 + |code|)
  {
    var m := n + 7 + |code|;
    SpaceEndAt(s, m, m + 1);
    assert s[n + 7] == code[0];
    SpaceEndAt(s, n + 6, n + 7);
    forall k | n + 7 <= k < m
      ensures !FenceAt(s, SpaceEnd(s, k))
    {
      assert s[m - 1] == code[|code| - 1];
      SpaceEndBefore(s, k, m - 1);
      var e := SpaceEnd(s, k);
      assert s[n + 7 + (e - n - 7)] == code[e - n - 7];
    }
    assert FenceAt(s, SpaceEnd(s, m));
  }

  /** A reply without backticks whose trimmed text starts with <?php is taken whole, trimmed. */
  lemma PlainReply(text: string)
    requires forall k :: 0 <= k < |text| ==> text[k] != '`'
    requires StartsWith(Trim(text), "<?php")
    ensures ExtractFix(Reply(text)) == Some(Trim(text))
  {
    NoBackticksNoMatch(text);
  }

  /** A reply with neither a fenced block nor a leading <?php gives no fix. */
  lemma ProseReply(text: string)
    requires forall i: nat, j: nat {:trigger PhpFenceAt(text, i), FenceAt(text, j)} ::
      PhpFenceAt(text, i) && i + 6 <= j ==> !FenceAt(text, j)
    requires !StartsWith(Trim(text), "<?php")
    ensures ExtractFix(Reply(text)) == None
  {
    FencedCodeExists(text);
  }
}
