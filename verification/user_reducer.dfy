/**
 * The client's user reducer (app/store/user/reducer.js). A JavaScript object is a map from
 * property names to values; `Object.assign({}, a, b)` and the spread `{...a, ...b}` copy
 * own properties left to right, so later sources win.
 */
module UserReducer {
  import opened Wrappers

  /** JavaScript values as the reducer meets them. */
  datatype Value =
    | Undefined
    | Bool(b: bool)
    | Num(n: int)
    | Str(s: string)
    | Object(fields: map<string, Value>)

  type JsObject = map<string, Value>

  const Fetching: string := "fetching"

  /** The action types of './actions'; their string values are not part of this model. */
  datatype ActionType = UserChanged | UserFetching | Other(name: string)

  /** A dispatched action: its type, and `action.user` (absent when `undefined`). */
  datatype Action = Action(kind: ActionType, user: Option<JsObject>)

  /** `INITIAL_STATE`: still fetching, every user field present but `undefined`. */
  const InitialState: JsObject := map[
    Fetching := Bool(true),
    "id" := Undefined,
    "name" := Undefined,
    "wcaId" := Undefined,
    "email" := Undefined,
    "avatar" := Object(map["thumb_url" := Undefined])
  ]

  /** Copying `source`'s own properties over `target`: the properties of both, `source` winning. */
  function Assign(target: JsObject, source: JsObject): (r: JsObject)
    ensures r.Keys == target.Keys + source.Keys
    ensures forall k :: k in source ==> r[k] == source[k]
    ensures forall k :: k in target && k !in source ==> r[k] == target[k]
  {
    target + source
  }

  /** Spreading `action.user`: an absent user spreads nothing. */
  function Spread(user: Option<JsObject>): JsObject {
    if user.Some? then user.value else map[]
  }

  /** The entries of the `reducers` table. */
  datatype Handler = ChangeUser | MarkFetching

  /** `reducers[action.type]`: defined for the two user action types only. */
  function Reducers(kind: ActionType): (h: Option<Handler>)
    ensures h.None? <==> kind.Other?
  {
    match kind
    case UserChanged => Some(ChangeUser)
    case UserFetching => Some(MarkFetching)
    case Other(_) => None
  }

  /** The two table entries: a fresh object merging the state with the handler's patch. */
  function Apply(h: Handler, state: JsObject, action: Action): (r: JsObject)
    ensures h == MarkFetching ==> r.Keys == state.Keys + {Fetching} && r[Fetching] == Bool(true)
    ensures h == ChangeUser ==> r.Keys == state.Keys + Spread(action.user).Keys + {Fetching}
    ensures h == ChangeUser ==> forall k :: k in Spread(action.user) ==> r[k] == Spread(action.user)[k]
    ensures h == ChangeUser && Fetching !in Spread(action.user) ==> r[Fetching] == Bool(false)
    ensures forall k :: k in state && k != Fetching && (h == ChangeUser ==> k !in Spread(action.user))
              ==> r[k] == state[k]
  {
    match h
    case ChangeUser => Assign(Assign(map[], state), Assign(map[Fetching := Bool(false)], Spread(action.user)))
    case MarkFetching => Assign(Assign(map[], state), map[Fetching := Bool(true)])
  }

  /**
   * `userReducer(state = INITIAL_STATE, action)`; an absent state is `undefined`. No action
   * removes a property: every property of the starting state is still there afterwards.
   */
  function Reduce(state: Option<JsObject>, action: Action): (r: JsObject)
    ensures state.Some? ==> state.value.Keys <= r.Keys
    ensures state.None? ==> InitialState.Keys <= r.Keys
  {
    var s := if state.Some? then state.value else InitialState;
    match Reducers(action.kind)
    case Some(h) => Apply(h, s, action)
    case None => s
  }

  // ---------------------------------------------------------------------------
  // Lemmas
  // ---------------------------------------------------------------------------

  /** An action type without a table entry returns the state itself. */
  lemma UnhandledKeepsState(state: JsObject, name: string, user: Option<JsObject>)
    ensures Reduce(Some(state), Action(Other(name), user)) == state
  {
  }

  /** Without a state, the reducer starts from `INITIAL_STATE`: fetching, with no id yet. */
  lemma AbsentStateIsInitial(action: Action)
    ensures Reduce(None, action) == Reduce(Some(InitialState), action)
    ensures InitialState[Fetching] == Bool(true) && InitialState["id"] == Undefined
    ensures action.kind.Other? ==> Reduce(None, action) == InitialState
  {
  }

  /** USER_FETCHING sets `fetching` to true and leaves every other property as it was. */
  lemma FetchingSetsOnlyTheFlag(state: JsObject, user: Option<JsObject>)
    ensures var r := Reduce(Some(state), Action(UserFetching, user));
      && r.Keys == state.Keys + {Fetching}
      && r[Fetching] == Bool(true)
      && forall k :: k in state && k != Fetching ==> r[k] == state[k]
  {
  }

  /** USER_FETCHING twice is USER_FETCHING once. */
  lemma FetchingIdempotent(state: JsObject, a: Action, b: Action)
    requires a.kind == UserFetching && b.kind == UserFetching
    ensures Reduce(Some(Reduce(Some(state), a)), b) == Reduce(Some(state), a)
  {
  }

  /**
   * USER_CHANGED gives every property of `action.user` its value there, keeps every other
   * property of the state, and sets `fetching` to false unless `action.user` carries one.
   */
  lemma ChangedMergesUser(state: JsObject, user: JsObject)
    ensures var r := Reduce(Some(state), Action(UserChanged, Some(user)));
      && r.Keys == state.Keys + user.Keys + {Fetching}
      && (forall k :: k in user ==> r[k] == user[k])
      && (forall k :: k in state && k !in user && k != Fetching ==> r[k] == state[k])
      && (Fetching !in user ==> r[Fetching] == Bool(false))
  {
  }

  /** USER_CHANGED without a user only clears `fetching`. */
  lemma ChangedWithoutUser(state: JsObject)
    ensures Reduce(Some(state), Action(UserChanged, None)) == state[Fetching := Bool(false)]
  {
  }

  /** Applying the same USER_CHANGED twice equals applying it once. */
  lemma ChangedIdempotent(state: JsObject, a: Action)
    requires a.kind == UserChanged
    ensures Reduce(Some(Reduce(Some(state), a)), a) == Reduce(Some(state), a)
  {
  }

  /** A USER_FETCHING followed by USER_CHANGED leaves no trace of the fetch. */
  lemma ChangedOverridesFetching(state: JsObject, fetch: Action, change: Action)
    requires fetch.kind == UserFetching && change.kind == UserChanged
    ensures Reduce(Some(Reduce(Some(state), fetch)), change) == Reduce(Some(state), change)
  {
  }
}
