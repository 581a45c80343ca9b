/** Values every page shares: optional values, the settled outcome of a call
    into the remote API, toast notifications and the routes a page can
    navigate to. */
module Common {

  datatype Option<+T> = None | Some(value: T)

  /** How an awaited call into the remote API settles: with its payload, or
      by throwing an error whose `message` is kept (an absent message is ""). */
  datatype Outcome<+T> = Ok(value: T) | Failed(message: string)

  /** The three toast colours of the notification component. */
  datatype ToastKind = Success | Error | Info

  /** The `{ message, type }` record a page keeps in its `toast` state. */
  datatype Toast = Toast(message: string, kind: ToastKind)

  /** The routes the modelled pages navigate to. */
  datatype Route = LoginRoute | DashboardRoute | ProductEditRoute(id: int)

  /** JavaScript truthiness of a string read from browser storage, which is
      `null` when the key is absent: both `null` and "" are falsy. */
  predicate Truthy(s: Option<string>)
  {
    s.Some? && s.value != ""
  }
}
