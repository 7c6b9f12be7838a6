/** What a request to the v2 order page asks for, and which guards it needs. */
module OrderActionEnum {
  import opened Wrappers

  datatype OrderAction = View | Save | Delete

  function Value(a: OrderAction): string {
    match a
    case View => "view"
    case Save => "save"
    case Delete => "delete"
  }

  /** OrderAction::fromRequest(?string): "save" and "delete" are recognised, anything else, null included, is a view. */
  function FromRequest(action: Option<string>): (r: OrderAction)
    ensures r == Save <==> action == Some("save")
    ensures r == Delete <==> action == Some("delete")
  {
    match action
    case Some(v) =>
      if v == "save" then Save
      else if v == "delete" then Delete
      else View
    case None => View
  }

  predicate RequiresAuthentication(a: OrderAction) {
    a != View
  }

  predicate RequiresCsrfToken(a: OrderAction) {
    a == Save || a == Delete
  }

  /** Every request that changes something needs both a login and a CSRF token, and a view needs neither. */
  lemma GuardsAgree(a: OrderAction)
    ensures RequiresAuthentication(a) <==> RequiresCsrfToken(a)
    ensures RequiresCsrfToken(a) <==> a != View
  {
  }

  /** Reading an action back from its own backing string gives the action. */
  lemma FromRequestValue(a: OrderAction)
    ensures FromRequest(Some(Value(a))) == a
  {
  }

  /** A request without a recognised action is a plain view and needs no guard. */
  lemma UnknownActionIsView(action: Option<string>)
    requires action != Some("save") && action != Some("delete")
    ensures FromRequest(action) == View
    ensures !RequiresAuthentication(FromRequest(action)) && !RequiresCsrfToken(FromRequest(action))
  {
  }
}
