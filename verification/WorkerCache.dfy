/** The cache of initialized apps in one worker: fixed slots, single flight, timeout, and bounded eviction. */
module WorkerCache {
  import opened Wrappers

  datatype Env = Env(preview: bool, authUrl: string, trusted: Option<seq<string>>)

  datatype Request = Request(origin: string, webdav: bool)

  datatype Slot = Configured | Primary | Webdav | Preview(origin: string)

  /** The race between an initialization and its timeout, and whether its continuation has stored the app. */
  datatype Status = Running | Won | Committed | Lost

  datatype Init = Init(slot: Slot, baseUrl: string, trusted: seq<string>, status: Status)

  /** An app and its auth instance, identified by the initialization that created them. */
  datatype App = App(init: nat, baseUrl: string, trusted: seq<string>)

  datatype Auth = Auth(init: nat)

  /** Insertion-ordered maps are sequences of entries; promises are indices into `inits`. */
  datatype State = State(
    auths: seq<(Slot, Auth)>, apps: seq<(Slot, App)>, pending: map<Slot, nat>, inits: seq<Init>)

  const EMPTY := State([], [], map[], [])

  const CAPACITY: nat := 8

  // Reading a request.

  function BaseUrl(env: Env, request: Request): string {
    if env.preview || env.authUrl == "" then request.origin else env.authUrl
  }

  function TrustedOrigins(env: Env, request: Request): seq<string> {
    match env.trusted
    case Some(origins) => origins
    case None => [request.origin]
  }

  function SlotOf(env: Env, request: Request): Slot {
    if env.preview then Preview(request.origin)
    else if env.authUrl != "" then Configured
    else if request.webdav then Webdav
    else Primary
  }

  // What reading a request means.

  /** One app serves both: in preview mode if they have one origin, with a configured URL always, else by their kind. */
  predicate ShareApp(env: Env, one: Request, other: Request) {
    if env.preview then one.origin == other.origin else env.authUrl != "" || one.webdav == other.webdav
  }

  /** An app for the request has this URL: previews and workers without a configured URL answer under its origin. */
  predicate IsOwnUrl(env: Env, request: Request, url: string) {
    && (env.preview ==> url == request.origin)
    && (!env.preview && env.authUrl != "" ==> url == env.authUrl)
    && (!env.preview && env.authUrl == "" ==> url == request.origin)
  }

  /** An app for the request trusts the configured origins, or its origin alone. */
  predicate IsOwnTrust(env: Env, request: Request, trusted: seq<string>) {
    && (env.trusted.Some? ==> trusted == env.trusted.value)
    && (env.trusted.None? ==> trusted == [request.origin])
  }

  lemma SlotsAgreeExactlyIf(env: Env, one: Request, other: Request)
    ensures SlotOf(env, one) == SlotOf(env, other) <==> ShareApp(env, one, other)
  {
  }

  // Insertion-ordered maps.

  function Keys<V>(entries: seq<(Slot, V)>): seq<Slot> {
    seq(|entries|, i requires 0 <= i < |entries| => entries[i].0)
  }

  function Get<V>(entries: seq<(Slot, V)>, slot: Slot): (r: Option<V>)
    ensures r.Some? ==> (slot, r.value) in entries
    ensures r.Some? <==> slot in Keys(entries)
  {
    if entries == [] then None
    else
      assert entries == [entries[0]] + entries[1..];
      assert Keys(entries) == [entries[0].0] + Keys(entries[1..]);
      if entries[0].0 == slot then Some(entries[0].1) else Get(entries[1..], slot)
  }

  /** Setting a present key keeps its place. */
  function Set<V>(entries: seq<(Slot, V)>, slot: Slot, value: V): seq<(Slot, V)> {
    if entries == [] then [(slot, value)]
    else if entries[0].0 == slot then [(slot, value)] + entries[1..]
    else [entries[0]] + Set(entries[1..], slot, value)
  }

  function Delete<V>(entries: seq<(Slot, V)>, slot: Slot): seq<(Slot, V)> {
    if entries == [] then []
    else if entries[0].0 == slot then entries[1..]
    else [entries[0]] + Delete(entries[1..], slot)
  }

  lemma {:induction false} SetAppends<V>(entries: seq<(Slot, V)>, slot: Slot, value: V)
    requires slot !in Keys(entries)
    ensures Set(entries, slot, value) == entries + [(slot, value)]
  {
    if entries != [] {
      assert Keys(entries)[0] == entries[0].0 && Keys(entries[1..]) == Keys(entries)[1..];
      SetAppends(entries[1..], slot, value);
      assert entries == [entries[0]] + entries[1..];
    }
  }

  // Atomic steps, between one await and the next.

  datatype Action =
    | Arrive(request: Request)
    | Settle(init: nat)
    | TimeOut(init: nat)
    | Commit(init: nat)
    | CleanUp(init: nat)

  /** What a request is answered with: a cached app, or the promise of an initialization. */
  datatype Answer = Cached(app: App) | Promised(init: nat)

  function AnswerTo(env: Env, request: Request, s: State): Answer {
    var slot := SlotOf(env, request);
    var app, auth := Get(s.apps, slot), Get(s.auths, slot);
    if app.Some? && auth.Some? then Cached(app.value)
    else if slot in s.pending then Promised(s.pending[slot])
    else Promised(|s.inits|)
  }

  function AfterArrival(env: Env, request: Request, s: State): State {
    var slot := SlotOf(env, request);
    if (Get(s.apps, slot).Some? && Get(s.auths, slot).Some?) || slot in s.pending then s
    else
      var init := Init(slot, BaseUrl(env, request), TrustedOrigins(env, request), Running);
      s.(inits := s.inits + [init], pending := s.pending[slot := |s.inits|])
  }

  function WithStatus(s: State, init: nat, status: Status): State
    requires init < |s.inits|
  {
    s.(inits := s.inits[init := s.inits[init].(status := status)])
  }

  /** The maps as the continuation of a successful initialization finds them: a full preview cache lost its oldest. */
  function Evicted(env: Env, s: State): State {
    if env.preview && |s.apps| >= CAPACITY then
      var oldest := s.apps[0].0;
      s.(apps := Delete(s.apps, oldest), auths := Delete(s.auths, oldest))
    else s
  }

  function AfterCommit(env: Env, init: nat, s: State): State
    requires init < |s.inits|
  {
    var i, room := s.inits[init], Evicted(env, s);
    WithStatus(
      room.(auths := Set(room.auths, i.slot, Auth(init)), apps := Set(room.apps, i.slot, App(init, i.baseUrl, i.trusted))),
      init, Committed)
  }

  /** The step is possible: races are decided once, and the creating request resumes after its promise is settled. */
  predicate Enabled(action: Action, s: State) {
    match action
    case Arrive(_) => true
    case Settle(init) => init < |s.inits| && s.inits[init].status == Running
    case TimeOut(init) => init < |s.inits| && s.inits[init].status == Running
    case Commit(init) => init < |s.inits| && s.inits[init].status == Won
    case CleanUp(init) => init < |s.inits| && (s.inits[init].status == Committed || s.inits[init].status == Lost)
  }

  function Next(env: Env, action: Action, s: State): State
    requires Enabled(action, s)
  {
    match action
    case Arrive(request) => AfterArrival(env, request, s)
    case Settle(init) => WithStatus(s, init, Won)
    case TimeOut(init) => WithStatus(s, init, Lost)
    case Commit(init) => AfterCommit(env, init, s)
    case CleanUp(init) =>
      var slot := s.inits[init].slot;
      if slot in s.pending && s.pending[slot] == init then s.(pending := s.pending - {slot}) else s
  }

  /** A run from the empty worker; steps that are not possible do not happen. */
  function Run(env: Env, actions: seq<Action>): State {
    if actions == [] then EMPTY
    else
      var s := Run(env, actions[..|actions| - 1]);
      var last := actions[|actions| - 1];
      if Enabled(last, s) then Next(env, last, s) else s
  }

  // What every step keeps.

  predicate Live(init: Init) {
    init.status == Running || init.status == Won
  }

  /** The initialization was begun by a request that belongs to its slot. */
  ghost predicate Begun(env: Env, init: Init) {
    exists request: Request :: IsBegunBy(env, init, request)
  }

  predicate IsBegunBy(env: Env, init: Init, request: Request) {
    SlotOf(env, request) == init.slot && IsOwnUrl(env, request, init.baseUrl) && IsOwnTrust(env, request, init.trusted)
  }

  ghost predicate Distinct(slots: seq<Slot>) {
    forall i, j | 0 <= i < j < |slots| :: slots[i] != slots[j]
  }

  /** A cached app belongs to its slot, was committed, and stands beside its own auth instance. */
  ghost predicate EntryIsSound(s: State, k: nat)
    requires k < |s.apps| && k < |s.auths|
  {
    var (slot, app) := s.apps[k];
    && app.init < |s.inits| && s.auths[k] == (slot, Auth(app.init))
    && s.inits[app.init] == Init(slot, app.baseUrl, app.trusted, Committed)
  }

  ghost predicate Inv(env: Env, s: State) {
    && |s.auths| == |s.apps| && Distinct(Keys(s.apps))
    && (forall k: nat | k < |s.apps| :: EntryIsSound(s, k))
    && (forall init | init in s.inits :: Begun(env, init))
    && (forall slot | slot in s.pending :: s.pending[slot] < |s.inits| && s.inits[s.pending[slot]].slot == slot)
    && (forall i: nat | i < |s.inits| && Live(s.inits[i]) ::
          s.inits[i].slot in s.pending && s.pending[s.inits[i].slot] == i && s.inits[i].slot !in Keys(s.apps))
    && (env.preview ==> |s.apps| <= CAPACITY)
  }

  lemma ArrivalKeepsInv(env: Env, request: Request, s: State)
    requires Inv(env, s)
    ensures Inv(env, AfterArrival(env, request, s))
  {
    var next := AfterArrival(env, request, s);
    if next != s {
      var slot := SlotOf(env, request);
      assert slot !in Keys(s.apps) by {
        KeysAgree(env, s);
      }
      assert IsBegunBy(env, next.inits[|s.inits|], request);
      forall k: nat | k < |next.apps| ensures EntryIsSound(next, k) {
        assert EntryIsSound(s, k);
      }
    }
  }

  /** Auth and app slots are the same, in the same order. */
  lemma KeysAgree(env: Env, s: State)
    requires Inv(env, s)
    ensures Keys(s.auths) == Keys(s.apps)
  {
    forall k: nat | k < |s.apps| ensures s.auths[k].0 == s.apps[k].0 {
      assert EntryIsSound(s, k);
    }
  }

  lemma DecidingKeepsInv(env: Env, init: nat, status: Status, s: State)
    requires Inv(env, s) && init < |s.inits| && s.inits[init].status == Running
    requires status == Won || status == Lost
    ensures Inv(env, WithStatus(s, init, status))
  {
    var next := WithStatus(s, init, status);
    forall k: nat | k < |next.apps| ensures EntryIsSound(next, k) {
      assert EntryIsSound(s, k);
    }
    forall i | i in next.inits ensures Begun(env, i) {
      var at :| 0 <= at < |next.inits| && next.inits[at] == i;
      StatusDoesNotMatter(env, s.inits[at], i);
    }
  }

  lemma StatusDoesNotMatter(env: Env, one: Init, other: Init)
    requires Begun(env, one) && other == one.(status := other.status)
    ensures Begun(env, other)
  {
    var request :| IsBegunBy(env, one, request);
    assert IsBegunBy(env, other, request);
  }

  lemma EvictionKeepsInv(env: Env, s: State)
    requires Inv(env, s)
    ensures Inv(env, Evicted(env, s)) && Evicted(env, s).inits == s.inits
    ensures env.preview ==> |Evicted(env, s).apps| < CAPACITY
    ensures Evicted(env, s).apps == if env.preview && |s.apps| >= CAPACITY then s.apps[1..] else s.apps
  {
    var next := Evicted(env, s);
    if next != s {
      assert EntryIsSound(s, 0);
      assert next.apps == s.apps[1..] && next.auths == s.auths[1..];
      forall k: nat | k < |next.apps| ensures EntryIsSound(next, k) {
        assert EntryIsSound(s, k + 1);
      }
      assert Keys(next.apps) == Keys(s.apps)[1..];
    }
  }

  lemma CommitKeepsInv(env: Env, init: nat, s: State)
    requires Inv(env, s) && init < |s.inits| && s.inits[init].status == Won
    ensures Inv(env, AfterCommit(env, init, s))
    ensures AfterCommit(env, init, s).apps ==
      Evicted(env, s).apps + [(s.inits[init].slot, App(init, s.inits[init].baseUrl, s.inits[init].trusted))]
  {
    var i, room, next := s.inits[init], Evicted(env, s), AfterCommit(env, init, s);
    EvictionKeepsInv(env, s);
    KeysAgree(env, room);
    assert Live(room.inits[init]);
    SetAppends(room.apps, i.slot, App(init, i.baseUrl, i.trusted));
    SetAppends(room.auths, i.slot, Auth(init));
    forall k: nat | k < |next.apps| ensures EntryIsSound(next, k) {
      if k < |room.apps| {
        assert EntryIsSound(room, k);
      }
    }
    assert Keys(next.apps) == Keys(room.apps) + [i.slot];
    forall other | other in next.inits ensures Begun(env, other) {
      var at :| 0 <= at < |next.inits| && next.inits[at] == other;
      StatusDoesNotMatter(env, s.inits[at], other);
    }
  }

  lemma CleanUpKeepsInv(env: Env, init: nat, s: State)
    requires Inv(env, s) && Enabled(CleanUp(init), s)
    ensures Inv(env, Next(env, CleanUp(init), s))
  {
    var next := Next(env, CleanUp(init), s);
    forall k: nat | k < |next.apps| ensures EntryIsSound(next, k) {
      assert EntryIsSound(s, k);
    }
  }

  lemma StepKeepsInv(env: Env, action: Action, s: State)
    requires Inv(env, s) && Enabled(action, s)
    ensures Inv(env, Next(env, action, s))
  {
    hide Inv;
    match action {
      case Arrive(request) => ArrivalKeepsInv(env, request, s);
      case Settle(init) => DecidingKeepsInv(env, init, Won, s);
      case TimeOut(init) => DecidingKeepsInv(env, init, Lost, s);
      case Commit(init) => CommitKeepsInv(env, init, s);
      case CleanUp(init) => CleanUpKeepsInv(env, init, s);
    }
  }

  lemma {:induction false} RunKeepsInv(env: Env, actions: seq<Action>)
    ensures Inv(env, Run(env, actions))
    decreases |actions|
  {
    if actions != [] {
      RunKeepsInv(env, actions[..|actions| - 1]);
      var s, last := Run(env, actions[..|actions| - 1]), actions[|actions| - 1];
      if Enabled(last, s) {
        StepKeepsInv(env, last, s);
      }
    }
  }

  // What holds in every reachable state.

  /** Auth and app maps always have the same slots. */
  lemma MapsAlwaysAgree(env: Env, actions: seq<Action>)
    ensures Keys(Run(env, actions).auths) == Keys(Run(env, actions).apps)
  {
    RunKeepsInv(env, actions);
    KeysAgree(env, Run(env, actions));
  }

  /** No two initializations of a slot are ever under way together, and none beside a cached app. */
  lemma SingleFlight(env: Env, actions: seq<Action>, i: nat, j: nat)
    requires i < |Run(env, actions).inits| && j < |Run(env, actions).inits|
    requires Live(Run(env, actions).inits[i]) && Live(Run(env, actions).inits[j])
    requires Run(env, actions).inits[i].slot == Run(env, actions).inits[j].slot
    ensures i == j && Run(env, actions).inits[i].slot !in Keys(Run(env, actions).apps)
  {
    RunKeepsInv(env, actions);
  }

  /** What a request is told to use: the cached app, or what its promise resolves to once committed. */
  function UrlOf(s: State, answer: Answer): string
    requires answer.Promised? ==> answer.init < |s.inits|
  {
    match answer
    case Cached(app) => app.baseUrl
    case Promised(init) => s.inits[init].baseUrl
  }

  function TrustOf(s: State, answer: Answer): seq<string>
    requires answer.Promised? ==> answer.init < |s.inits|
  {
    match answer
    case Cached(app) => app.trusted
    case Promised(init) => s.inits[init].trusted
  }

  /** The answer belongs to the request's slot, and was begun by a request of that slot. */
  lemma AnswerBelongsToSlot(env: Env, request: Request, s: State) returns (begun: Init)
    requires Inv(env, s)
    ensures var answer, next := AnswerTo(env, request, s), AfterArrival(env, request, s);
      && (answer.Promised? ==> answer.init < |next.inits|)
      && begun.slot == SlotOf(env, request) && Begun(env, begun)
      && UrlOf(next, answer) == begun.baseUrl && TrustOf(next, answer) == begun.trusted
  {
    var slot, answer, next := SlotOf(env, request), AnswerTo(env, request, s), AfterArrival(env, request, s);
    ArrivalKeepsInv(env, request, s);
    match answer {
      case Cached(app) =>
        var k: nat :| k < |s.apps| && s.apps[k] == (slot, app);
        assert EntryIsSound(s, k);
        begun := s.inits[app.init];
        assert begun in s.inits;
      case Promised(init) =>
        begun := next.inits[init];
        assert begun in next.inits;
    }
  }

  /** After the run the request is answered with an app, or the promise of one, that has its own base URL. */
  ghost predicate GetsItsOwnUrl(env: Env, actions: seq<Action>, request: Request) {
    var s := Run(env, actions);
    var answer, next := AnswerTo(env, request, s), AfterArrival(env, request, s);
    (answer.Promised? ==> answer.init < |next.inits|) && IsOwnUrl(env, request, UrlOf(next, answer))
  }

  ghost predicate GetsItsOwnTrust(env: Env, actions: seq<Action>, request: Request) {
    var s := Run(env, actions);
    var answer, next := AnswerTo(env, request, s), AfterArrival(env, request, s);
    (answer.Promised? ==> answer.init < |next.inits|) && IsOwnTrust(env, request, TrustOf(next, answer))
  }

  /** The answer is an app, or the promise of one, that was built for a request it is shared with. */
  ghost predicate IsSharedAnswer(env: Env, request: Request, first: Request, s: State, answer: Answer) {
    && (answer.Promised? ==> answer.init < |s.inits|)
    && ShareApp(env, first, request) && IsOwnUrl(env, first, UrlOf(s, answer)) && IsOwnTrust(env, first, TrustOf(s, answer))
  }

  ghost predicate HasSharedAnswer(env: Env, request: Request, s: State, answer: Answer) {
    exists first: Request :: IsSharedAnswer(env, request, first, s, answer)
  }

  lemma AnswerIsShared(env: Env, request: Request, s: State)
    requires Inv(env, s)
    ensures HasSharedAnswer(env, request, AfterArrival(env, request, s), AnswerTo(env, request, s))
  {
    var begun := AnswerBelongsToSlot(env, request, s);
    var first: Request :| IsBegunBy(env, begun, first);
    SlotsAgreeExactlyIf(env, first, request);
    assert IsSharedAnswer(env, request, first, AfterArrival(env, request, s), AnswerTo(env, request, s));
  }

  /** Every initialization of a run was begun by a request that arrived. */
  lemma {:induction false} BegunByAnArrival(env: Env, actions: seq<Action>, i: nat) returns (first: Request)
    requires i < |Run(env, actions).inits|
    ensures Arrive(first) in actions && IsBegunBy(env, Run(env, actions).inits[i], first)
    decreases |actions|
  {
    var init, last := actions[..|actions| - 1], actions[|actions| - 1];
    var s := Run(env, init);
    if i < |s.inits| {
      first := BegunByAnArrival(env, init, i);
      if Enabled(last, s) {
        InitsPersist(env, last, s, i);
      }
    } else {
      first := last.request;
    }
  }

  /**
   * Whatever ran before, a request is answered with an app built for itself or for an earlier request it shares the app
   * with: in preview mode under the request's origin, with a configured URL under that one, and otherwise under the
   * origin of that first request; it trusts the configured origins, or the origin of that first request.
   */
  lemma AnswerIsBuiltForAnArrival(env: Env, actions: seq<Action>, request: Request) returns (first: Request)
    ensures var s := Run(env, actions);
      var answer, next := AnswerTo(env, request, s), AfterArrival(env, request, s);
      && (first == request || Arrive(first) in actions) && ShareApp(env, first, request)
      && (answer.Promised? ==> answer.init < |next.inits|)
      && (env.preview ==> first.origin == request.origin == UrlOf(next, answer))
      && (!env.preview && env.authUrl != "" ==> UrlOf(next, answer) == env.authUrl)
      && (!env.preview && env.authUrl == "" ==> UrlOf(next, answer) == first.origin)
      && (env.trusted.Some? ==> TrustOf(next, answer) == env.trusted.value)
      && (env.trusted.None? ==> TrustOf(next, answer) == [first.origin])
  {
    var s := Run(env, actions);
    var slot, answer, next := SlotOf(env, request), AnswerTo(env, request, s), AfterArrival(env, request, s);
    RunKeepsInv(env, actions);
    var i: nat;
    match answer {
      case Cached(app) =>
        var k: nat :| k < |s.apps| && s.apps[k] == (slot, app);
        assert EntryIsSound(s, k);
        i := app.init;
      case Promised(init) =>
        i := init;
    }
    if i < |s.inits| {
      first := BegunByAnArrival(env, actions, i);
    } else {
      first := request;
    }
    SlotsAgreeExactlyIf(env, first, request);
  }

  /**
   * In preview and configured modes every request resolves to an app built with its own base URL, whatever was
   * initialized, timed out or evicted before; in preview mode, or with configured origins, to one with its own trusted
   * origins.
   */
  lemma RequestsResolveToTheirOwnUrl(env: Env, actions: seq<Action>, request: Request)
    ensures env.preview || env.authUrl != "" ==> GetsItsOwnUrl(env, actions, request)
    ensures env.preview || env.trusted.Some? ==> GetsItsOwnTrust(env, actions, request)
  {
    RunKeepsInv(env, actions);
    var begun := AnswerBelongsToSlot(env, request, Run(env, actions));
    var first: Request :| IsBegunBy(env, begun, first);
    SlotsAgreeExactlyIf(env, first, request);
  }

  /** A first request that was initialized and stored, without preview mode. */
  function FirstStored(first: Request): seq<Action> {
    [Arrive(first), Settle(0), Commit(0)]
  }

  lemma StoredAppServesTheSlot(env: Env, first: Request, second: Request)
    requires !env.preview && SlotOf(env, first) == SlotOf(env, second)
    ensures AnswerTo(env, second, Run(env, FirstStored(first))) ==
      Cached(App(0, BaseUrl(env, first), TrustedOrigins(env, first)))
  {
    var a, b, c := Arrive(first), Settle(0), Commit(0);
    assert [a, b, c][..2] == [a, b] && [a, b][..1] == [a] && [a][..0] == [];
    var begun := AfterArrival(env, first, EMPTY);
    assert Run(env, [a]) == begun;
    assert Run(env, [a, b]) == WithStatus(begun, 0, Won);
    var s := AfterCommit(env, 0, WithStatus(begun, 0, Won));
    assert Run(env, [a, b, c]) == s;
    var slot, app := SlotOf(env, first), App(0, BaseUrl(env, first), TrustedOrigins(env, first));
    assert s.apps == [(slot, app)] && s.auths == [(slot, Auth(0))];
  }

  /** Without preview mode or a configured URL, a request can be handed an app of another origin. */
  lemma PrimarySlotCanServeAnotherOrigin(env: Env, first: string, second: string)
    requires !env.preview && env.authUrl == "" && first != second
    ensures var answer := AnswerTo(env, Request(second, false), Run(env, FirstStored(Request(first, false))));
      answer.Cached? && answer.app.baseUrl == first
    ensures !GetsItsOwnUrl(env, FirstStored(Request(first, false)), Request(second, false))
  {
    hide Run;
    StoredAppServesTheSlot(env, Request(first, false), Request(second, false));
  }

  /** Without preview mode or configured origins, a request can be handed an app that trusts another origin. */
  lemma SharedSlotCanTrustAnotherOrigin(env: Env, first: string, second: string)
    requires !env.preview && env.trusted.None? && first != second
    ensures var answer := AnswerTo(env, Request(second, false), Run(env, FirstStored(Request(first, false))));
      answer.Cached? && answer.app.trusted == [first]
    ensures !GetsItsOwnTrust(env, FirstStored(Request(first, false)), Request(second, false))
  {
    hide Run;
    StoredAppServesTheSlot(env, Request(first, false), Request(second, false));
    assert [first][0] != [second][0];
  }

  /**
   * Over all runs and requests: everyone gets their own base URL exactly in preview and configured modes, and their own
   * trusted origins exactly in preview mode or with configured origins.
   */
  lemma OwnUrlAndTrustExactlyIf(env: Env)
    ensures (forall actions, request :: GetsItsOwnUrl(env, actions, request)) <==> (env.preview || env.authUrl != "")
    ensures (forall actions, request :: GetsItsOwnTrust(env, actions, request)) <==> (env.preview || env.trusted.Some?)
  {
    hide GetsItsOwnUrl, GetsItsOwnTrust;
    forall actions, request
      ensures env.preview || env.authUrl != "" ==> GetsItsOwnUrl(env, actions, request)
      ensures env.preview || env.trusted.Some? ==> GetsItsOwnTrust(env, actions, request)
    {
      RequestsResolveToTheirOwnUrl(env, actions, request);
    }
    if !env.preview && env.authUrl == "" {
      PrimarySlotCanServeAnotherOrigin(env, "a", "b");
    }
    if !env.preview && env.trusted.None? {
      SharedSlotCanTrustAnotherOrigin(env, "a", "b");
    }
  }

  // Initializations that lost their race.

  lemma InitsPersist(env: Env, action: Action, s: State, i: nat)
    requires Enabled(action, s) && i < |s.inits|
    ensures var next := Next(env, action, s);
      && i < |next.inits| && next.inits[i].slot == s.inits[i].slot && next.inits[i].baseUrl == s.inits[i].baseUrl
      && next.inits[i].trusted == s.inits[i].trusted
      && (s.inits[i].status == Lost ==> next.inits[i].status == Lost)
  {
  }

  /** Once timed out, an initialization stays so, and no map ever holds what it produced. */
  lemma {:induction false} TimedOutNeverWrites(env: Env, before: seq<Action>, after: seq<Action>, init: nat)
    requires init < |Run(env, before).inits| && Run(env, before).inits[init].status == Lost
    ensures var s := Run(env, before + after);
      && init < |s.inits| && s.inits[init].status == Lost
      && (forall k: nat | k < |s.apps| :: s.apps[k].1.init != init)
      && (forall k: nat | k < |s.auths| :: s.auths[k].1.init != init)
    decreases |after|
  {
    hide Inv;
    if after == [] {
      assert before + after == before;
    } else {
      var earlier, last := after[..|after| - 1], after[|after| - 1];
      TimedOutNeverWrites(env, before, earlier, init);
      assert (before + after)[..|before + after| - 1] == before + earlier;
      var s := Run(env, before + earlier);
      if Enabled(last, s) {
        InitsPersist(env, last, s, init);
      }
    }
    RunKeepsInv(env, before + after);
    LostIsNotStored(env, Run(env, before + after), init);
  }

  lemma LostIsNotStored(env: Env, s: State, init: nat)
    requires Inv(env, s) && init < |s.inits| && s.inits[init].status == Lost
    ensures forall k: nat | k < |s.apps| :: s.apps[k].1.init != init
    ensures forall k: nat | k < |s.auths| :: s.auths[k].1.init != init
  {
    forall k: nat | k < |s.apps| ensures s.apps[k].1.init != init && s.auths[k].1.init != init {
      assert EntryIsSound(s, k);
    }
  }

  /** A lost initialization that is still registered holds its slot: only its own clean-up frees it. */
  lemma LostRegistrationHoldsItsSlot(env: Env, request: Request, init: nat, action: Action, s: State)
    requires Inv(env, s) && Enabled(action, s) && action != CleanUp(init)
    requires SlotOf(env, request) in s.pending && s.pending[SlotOf(env, request)] == init
    requires s.inits[init].status == Lost && SlotOf(env, request) !in Keys(s.apps)
    ensures AnswerTo(env, request, Next(env, action, s)) == Promised(init)
  {
    var next, slot := Next(env, action, s), SlotOf(env, request);
    match action {
      case Commit(i) =>
        CommitKeepsInv(env, i, s);
        EvictionKeepsInv(env, s);
        assert Live(s.inits[i]) && s.inits[i].slot != slot;
        var room := Evicted(env, s).apps;
        forall k: nat | k < |next.apps| ensures Keys(next.apps)[k] != slot {
          if k < |room| {
            var at := if room == s.apps then k else k + 1;
            assert next.apps[k] == room[k] == s.apps[at] && Keys(s.apps)[at] == s.apps[at].0;
          }
        }
      case _ =>
    }
  }

  /** After its clean-up the next request starts anew. */
  lemma CleanUpFreesTheSlot(env: Env, request: Request, init: nat, s: State)
    requires Inv(env, s) && Enabled(CleanUp(init), s)
    requires SlotOf(env, request) in s.pending && s.pending[SlotOf(env, request)] == init
    requires SlotOf(env, request) !in Keys(s.apps)
    ensures AnswerTo(env, request, Next(env, CleanUp(init), s)) == Promised(|s.inits|)
  {
  }

  // Bounds and eviction order.

  /** The initializations in the order in which they were committed. */
  function CommitOrder(env: Env, actions: seq<Action>): seq<nat> {
    if actions == [] then []
    else
      var init, last := actions[..|actions| - 1], actions[|actions| - 1];
      var before := CommitOrder(env, init);
      if last.Commit? && Enabled(last, Run(env, init)) then before + [last.init] else before
  }

  function Latest(order: seq<nat>, bound: nat): seq<nat> {
    if |order| > bound then order[|order| - bound..] else order
  }

  function InitsOf(apps: seq<(Slot, App)>): seq<nat> {
    seq(|apps|, i requires 0 <= i < |apps| => apps[i].1.init)
  }

  /** A preview worker holds exactly the eight most recent commits, oldest first; any other worker holds all of them. */
  lemma {:induction false} CacheHoldsTheLatest(env: Env, actions: seq<Action>)
    ensures InitsOf(Run(env, actions).apps) ==
      if env.preview then Latest(CommitOrder(env, actions), CAPACITY) else CommitOrder(env, actions)
    decreases |actions|
  {
    hide Inv;
    if actions != [] {
      var init, last := actions[..|actions| - 1], actions[|actions| - 1];
      var s := Run(env, init);
      CacheHoldsTheLatest(env, init);
      RunKeepsInv(env, init);
      if last.Commit? && Enabled(last, s) {
        CommitKeepsInv(env, last.init, s);
        EvictionKeepsInv(env, s);
        var room, order := Evicted(env, s).apps, CommitOrder(env, init);
        assert InitsOf(Run(env, actions).apps) == InitsOf(room) + [last.init];
        if env.preview && |s.apps| >= CAPACITY {
          assert InitsOf(room) == InitsOf(s.apps)[1..];
          AtCapacity(env, s);
          assert |Latest(order, CAPACITY)| == CAPACITY;
          assert Latest(order, CAPACITY)[1..] + [last.init] == Latest(order + [last.init], CAPACITY);
        } else if env.preview {
          assert |Latest(order, CAPACITY)| < CAPACITY;
        }
      }
    }
  }

  lemma AtCapacity(env: Env, s: State)
    requires Inv(env, s) && env.preview && |s.apps| >= CAPACITY
    ensures |s.apps| == CAPACITY
  {
  }

  /** However many initializations overlap, both maps stay within eight slots, or two outside preview mode. */
  lemma CacheIsBounded(env: Env, actions: seq<Action>)
    ensures var s := Run(env, actions);
      |s.apps| == |s.auths| <= if env.preview then CAPACITY else if env.authUrl != "" then 1 else 2
  {
    RunKeepsInv(env, actions);
    var s := Run(env, actions);
    if !env.preview {
      forall k: nat | k < |s.apps| ensures s.apps[k].0 in (if env.authUrl != "" then {Configured} else {Primary, Webdav}) {
        assert EntryIsSound(s, k);
        var init := s.inits[s.apps[k].1.init];
        assert init in s.inits && Begun(env, init);
        var request :| IsBegunBy(env, init, request);
      }
      if env.authUrl != "" {
        DistinctWithin(Keys(s.apps), [Configured]);
      } else {
        DistinctWithin(Keys(s.apps), [Primary, Webdav]);
      }
    }
  }

  lemma {:induction false} DistinctWithin(slots: seq<Slot>, allowed: seq<Slot>)
    requires Distinct(slots) && forall slot | slot in slots :: slot in allowed
    ensures |slots| <= |allowed|
    decreases |slots|
  {
    if slots != [] {
      var last := slots[|slots| - 1];
      assert last in slots;
      var at :| 0 <= at < |allowed| && allowed[at] == last;
      var rest := allowed[..at] + allowed[at + 1..];
      assert forall slot | slot in slots[..|slots| - 1] :: slot in rest by {
        forall i | 0 <= i < |slots| - 1 ensures slots[i] in rest {
          assert slots[i] != last && slots[i] in slots;
          var j :| 0 <= j < |allowed| && allowed[j] == slots[i];
          assert rest[if j < at then j else j - 1] == slots[i];
        }
      }
      DistinctWithin(slots[..|slots| - 1], rest);
    }
  }

  // The worker.

  /** The runtime of one worker isolate, with the three maps that requests read and update between awaits. */
  class WorkerRuntime {
    const env: Env
    var authBySlot: seq<(Slot, Auth)>
    var appBySlot: seq<(Slot, App)>
    var appInitBySlot: map<Slot, nat>
    var inits: seq<Init>

    constructor (env: Env)
      ensures this.env == env && Current() == EMPTY && Inv(env, Current())
    {
      this.env := env;
      authBySlot, appBySlot, appInitBySlot, inits := [], [], map[], [];
    }

    function Current(): State
      reads this
    {
      State(authBySlot, appBySlot, appInitBySlot, inits)
    }

    /** `appForRequest` up to its first await. */
    method AppForRequest(request: Request) returns (answer: Answer)
      requires Inv(env, Current())
      modifies this
      ensures answer == old(AnswerTo(env, request, Current()))
      ensures Current() == old(AfterArrival(env, request, Current())) && Inv(env, Current())
      ensures HasSharedAnswer(env, request, Current(), answer)
    {
      ArrivalKeepsInv(env, request, Current());
      AnswerIsShared(env, request, Current());
      var slot := SlotOf(env, request);
      var cachedApp, cachedAuth := Get(appBySlot, slot), Get(authBySlot, slot);
      if cachedApp.Some? && cachedAuth.Some? {
        return Cached(cachedApp.value);
      }
      if slot in appInitBySlot {
        return Promised(appInitBySlot[slot]);
      }
      answer := Promised(|inits|);
      appInitBySlot := appInitBySlot[slot := |inits|];
      inits := inits + [Init(slot, BaseUrl(env, request), TrustedOrigins(env, request), Running)];
    }

    /** The race between the initialization and its timeout is decided. */
    method Decide(init: nat, won: bool)
      requires Inv(env, Current()) && init < |inits| && inits[init].status == Running
      modifies this`inits
      ensures Current() == old(Next(env, if won then Settle(init) else TimeOut(init), Current())) && Inv(env, Current())
    {
      DecidingKeepsInv(env, init, if won then Won else Lost, Current());
      inits := inits[init := inits[init].(status := if won then Won else Lost)];
    }

    /** The continuation of a successful initialization. */
    method StoreApp(init: nat)
      requires Inv(env, Current()) && init < |inits| && inits[init].status == Won
      modifies this
      ensures Current() == old(Next(env, Commit(init), Current())) && Inv(env, Current())
    {
      CommitKeepsInv(env, init, Current());
      if env.preview && |appBySlot| >= CAPACITY {
        var oldest := appBySlot[0].0;
        appBySlot := Delete(appBySlot, oldest);
        authBySlot := Delete(authBySlot, oldest);
      }
      var i := inits[init];
      authBySlot := Set(authBySlot, i.slot, Auth(init));
      appBySlot := Set(appBySlot, i.slot, App(init, i.baseUrl, i.trusted));
      inits := inits[init := i.(status := Committed)];
    }

    /** The finally block of the creating request, if it is resumed at all. */
    method Release(init: nat)
      requires Inv(env, Current()) && Enabled(CleanUp(init), Current())
      modifies this`appInitBySlot
      ensures Current() == old(Next(env, CleanUp(init), Current())) && Inv(env, Current())
    {
      CleanUpKeepsInv(env, init, Current());
      var slot := inits[init].slot;
      if slot in appInitBySlot && appInitBySlot[slot] == init {
        appInitBySlot := appInitBySlot - {slot};
      }
    }
  }
}
