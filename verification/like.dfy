/** The like button. A session id is read from local storage, or generated
    and stored on first use; a second stored flag, keyed by that id, remembers
    that this session already liked. A click while liked only shows a notice.
    Otherwise the click starts the animation and sends one insert to the
    hosted store, and the flag is set only once that insert succeeds. Nothing
    stops a second click while the first insert is in flight. The
    animation is cleared by a 600 ms timer armed when the insert settles,
    whatever its outcome. */
module Like {

  type Store = map<string, string>

  const SessionKey: string := "portfolio_session_id"
  const LikedPrefix: string := "portfolio_liked_"
  const LikedValue: string := "true"

  /** The key of the "already liked" flag of session `id`. */
  function LikedKey(id: string): string {
    LikedPrefix + id
  }

  /** The flag's key never collides with the session id's key. */
  lemma LikedKeyIsNotSessionKey(id: string)
    ensures LikedKey(id) != SessionKey
  {
    assert LikedKey(id)[10] == 'l';
    assert SessionKey[10] == 's';
  }

  /** The id stored under the session key, if it is a non-empty string. */
  predicate HasSession(store: Store) {
    SessionKey in store && store[SessionKey] != ""
  }

  /** `getSessionId`: the stored id if there is a non-empty one; otherwise
      `newId` (standing for `crypto.randomUUID()`) is stored and returned. */
  function GetSessionId(store: Store, newId: string): (r: (string, Store))
    ensures HasSession(store) ==> r.0 == store[SessionKey] && r.1 == store
    ensures !HasSession(store) ==> r.0 == newId && r.1 == store[SessionKey := newId]
    ensures SessionKey in r.1 && r.1[SessionKey] == r.0
    ensures forall k :: k != SessionKey ==> (k in r.1 <==> k in store)
    ensures forall k :: k != SessionKey && k in store ==> r.1[k] == store[k]
  {
    if HasSession(store) then (store[SessionKey], store)
    else (newId, store[SessionKey := newId])
  }

  /** Asking twice gives the same id and stores nothing more the second time. */
  lemma SessionIdIsStable(store: Store, fresh1: string, fresh2: string)
    requires fresh1 != ""
    ensures var (id, s1) := GetSessionId(store, fresh1);
      GetSessionId(s1, fresh2) == (id, s1)
  {
  }

  /** The toast last shown. */
  datatype Notice = NoNotice | AlreadyLiked | Thanks | LikeFailed

  datatype State = State(
    liked: bool,
    isAnimating: bool,
    store: Store,
    inFlight: seq<string>,   // session ids of inserts not yet settled, oldest first
    inserts: seq<string>,    // every insert sent to the store, in order
    pendingResets: nat,      // armed 600 ms timers
    notice: Notice
  )

  datatype Event =
    | Clicked(newId: string)     // `handleLike`, with the id a new session would get
    | InsertSettled(ok: bool)    // the oldest insert in flight succeeds or fails
    | ResetFired                 // a 600 ms timer fires

  /** `crypto.randomUUID()` never returns the empty string. */
  predicate ValidEvent(e: Event) {
    e.Clicked? ==> e.newId != ""
  }

  /** The button's first render over whatever local storage holds. */
  function Initial(store: Store): State {
    State(false, false, store, [], [], 0, NoNotice)
  }

  /** The mount effect: get or create the session id, then adopt the stored flag
      if it is exactly "true". */
  function Mount(s: State, newId: string): (r: State)
    ensures var id := GetSessionId(s.store, newId).0;
      && r.store == GetSessionId(s.store, newId).1
      && r.liked == (s.liked || (LikedKey(id) in r.store && r.store[LikedKey(id)] == LikedValue))
    ensures r.inserts == s.inserts && r.inFlight == s.inFlight && r.isAnimating == s.isAnimating
    ensures r.notice == s.notice && r.pendingResets == s.pendingResets
  {
    var (id, store) := GetSessionId(s.store, newId);
    var hasLiked := LikedKey(id) in store && store[LikedKey(id)] == LikedValue;
    s.(store := store, liked := s.liked || hasLiked)
  }

  function Step(s: State, e: Event): (r: State)
    requires ValidEvent(e)
    // a click while liked sends nothing and changes nothing but the notice
    ensures e.Clicked? && s.liked ==> r == s.(notice := AlreadyLiked)
    // a click while not liked sends exactly one insert for the session id
    ensures e.Clicked? && !s.liked ==>
      && r.isAnimating && !r.liked
      && var id := GetSessionId(s.store, e.newId).0;
      && r.inserts == s.inserts + [id]
      && r.inFlight == s.inFlight + [id]
      && r.store == GetSessionId(s.store, e.newId).1
      && r.notice == s.notice && r.pendingResets == s.pendingResets
    // a successful insert sets the flag, in memory and in storage
    ensures e.InsertSettled? && s.inFlight != [] && e.ok ==>
      && r.liked
      && r.store == s.store[LikedKey(s.inFlight[0]) := LikedValue]
      && r.notice == Thanks
    // a failed insert leaves the flag and the storage alone
    ensures e.InsertSettled? && s.inFlight != [] && !e.ok ==>
      && r.liked == s.liked && r.store == s.store && r.notice == LikeFailed
    // either way the insert leaves the queue and the animation reset is armed
    ensures e.InsertSettled? && s.inFlight != [] ==>
      && r.inFlight == s.inFlight[1..] && r.pendingResets == s.pendingResets + 1
      && r.inserts == s.inserts && r.isAnimating == s.isAnimating
    ensures e.ResetFired? && s.pendingResets > 0 ==>
      && !r.isAnimating && r.pendingResets == s.pendingResets - 1 && r.liked == s.liked && r.store == s.store
      && r.inserts == s.inserts && r.inFlight == s.inFlight && r.notice == s.notice
    // an event with nothing to act on changes nothing
    ensures e.InsertSettled? && s.inFlight == [] ==> r == s
    ensures e.ResetFired? && s.pendingResets == 0 ==> r == s
  {
    match e
    case Clicked(newId) =>
      if s.liked then s.(notice := AlreadyLiked)
      else
        var (id, store) := GetSessionId(s.store, newId);
        s.(isAnimating := true, store := store, inserts := s.inserts + [id], inFlight := s.inFlight + [id])
    case InsertSettled(ok) =>
      if s.inFlight == [] then s
      else
        var id := s.inFlight[0];
        var t := s.(inFlight := s.inFlight[1..], pendingResets := s.pendingResets + 1);
        if ok then t.(liked := true, store := s.store[LikedKey(id) := LikedValue], notice := Thanks)
        else t.(notice := LikeFailed)
    case ResetFired =>
      if s.pendingResets == 0 then s
      else s.(isAnimating := false, pendingResets := s.pendingResets - 1)
  }

  predicate ValidEvents(es: seq<Event>) {
    forall i :: 0 <= i < |es| ==> ValidEvent(es[i])
  }

  function Run(s: State, es: seq<Event>): State
    requires ValidEvents(es)
    decreases |es|
  {
    if es == [] then s else Run(Step(s, es[0]), es[1..])
  }

  /** Whether storage records that the current session liked. */
  predicate StoredLiked(store: Store) {
    HasSession(store) && LikedKey(store[SessionKey]) in store
    && store[LikedKey(store[SessionKey])] == LikedValue
  }

  /** Every insert in flight carries the stored session id, and `liked` is true
      only when storage records the like for that session. */
  ghost predicate Inv(s: State) {
    && (s.inFlight != [] ==> HasSession(s.store))
    && (forall i :: 0 <= i < |s.inFlight| ==> s.inFlight[i] == s.store[SessionKey])
    && (s.liked ==> StoredLiked(s.store))
  }

  lemma MountEstablishesInv(store: Store, newId: string)
    requires newId != ""
    ensures Inv(Mount(Initial(store), newId))
    ensures Mount(Initial(store), newId).liked <==> StoredLiked(Mount(Initial(store), newId).store)
  {
  }

  lemma StepPreservesInv(s: State, e: Event)
    requires Inv(s) && ValidEvent(e)
    ensures Inv(Step(s, e))
  {
    match e
    case Clicked(newId) =>
    case InsertSettled(ok) =>
      if s.inFlight != [] && ok {
        LikedKeyIsNotSessionKey(s.inFlight[0]);
      }
    case ResetFired =>
  }

  /** Along any run, `liked` is set only when storage holds the flag for the
      session, and every insert sent carries that session's id. */
  lemma {:induction false} RunPreservesInv(s: State, es: seq<Event>)
    requires Inv(s) && ValidEvents(es)
    ensures Inv(Run(s, es))
    ensures Run(s, es).liked ==> StoredLiked(Run(s, es).store)
    decreases |es|
  {
    if es != [] {
      StepPreservesInv(s, es[0]);
      RunPreservesInv(Step(s, es[0]), es[1..]);
    }
  }

  /** Once liked, the button stays liked and sends nothing more, whatever the user does. */
  lemma {:induction false} LikedIsFinal(s: State, es: seq<Event>)
    requires s.liked && ValidEvents(es)
    ensures Run(s, es).liked
    ensures |Run(s, es).inserts| == |s.inserts|
    decreases |es|
  {
    if es != [] {
      LikedIsFinal(Step(s, es[0]), es[1..]);
    }
  }

  /** After a failed insert the user can retry, and the retry sends a new insert. */
  lemma RetryAfterFailure(s: State, newId: string)
    requires !s.liked && |s.inFlight| == 1 && newId != ""
    ensures var f := Step(s, InsertSettled(false));
      !f.liked && |Step(f, Clicked(newId)).inserts| == |s.inserts| + 1
  {
  }

  /** Two clicks before the first insert settles both send an insert, for the same session. */
  lemma DoubleClickInsertsTwice(s: State, fresh1: string, fresh2: string)
    requires !s.liked && fresh1 != "" && fresh2 != ""
    ensures var r := Step(Step(s, Clicked(fresh1)), Clicked(fresh2));
      && |r.inserts| == |s.inserts| + 2
      && r.inserts[|s.inserts|] == r.inserts[|s.inserts| + 1]
  {
  }
}
