/**
 The presence cache of the delivery path (internal/app/delivery_presence_cache.go:47-166). A
 read that misses is two steps, before and after the target answers, so that other operations
 may come in between. Fills are numbered in the order in which they start.
 */
module PresenceCache {
  import opened Options

  type UID = string
  type Route = nat

  datatype Entry = Entry(routes: seq<Route>, expiresAt: int, fill: nat)

  /** A fill that asks the target for some UIDs; its expiry counts from its start. */
  datatype Flight = Flight(uids: seq<UID>, start: int)

  /** What the target answered to a fill. */
  datatype Answer = Answer(flight: Flight, answers: map<UID, seq<Route>>)

  datatype State = State(
    entries: map<UID, Entry>,
    flights: map<nat, Flight>,
    next: nat,
    answered: map<nat, Answer>,
    largest: nat)

  datatype Config = Config(ttl: int, maxEntries: nat)

  datatype Step =
    | StartFill(uids: seq<UID>, now: int)
    | Complete(flight: nat, answers: map<UID, seq<Route>>, batch: bool)
    | Fail(flight: nat)
    | Invalidate(uid: UID)
    | Clear

  function Init(): State {
    State(map[], map[], 0, map[], 0)
  }

  /** What a read finds in the cache. */
  function Hit(s: State, uid: UID, now: int): Option<seq<Route>> {
    if uid in s.entries && now < s.entries[uid].expiresAt then Some(s.entries[uid].routes) else None
  }

  function AnswerFor(answers: map<UID, seq<Route>>, uid: UID): seq<Route> {
    if uid in answers then answers[uid] else []
  }

  /** The entries after the answers for a list of UIDs were stored: an empty answer removes the entry. */
  function Filled(entries: map<UID, Entry>, uids: seq<UID>, answers: map<UID, seq<Route>>, expiresAt: int,
      fill: nat): map<UID, Entry>
    decreases |uids|
  {
    if uids == [] then entries
    else
      var m, uid := Filled(entries, uids[..|uids| - 1], answers, expiresAt, fill), uids[|uids| - 1];
      if AnswerFor(answers, uid) == [] then m - {uid} else m[uid := Entry(answers[uid], expiresAt, fill)]
  }

  /** The UIDs of the list have their answers, unless these are empty; all other UIDs are as before. */
  ghost predicate FilledAs(entries: map<UID, Entry>, m: map<UID, Entry>, uids: seq<UID>,
      answers: map<UID, seq<Route>>, expiresAt: int, fill: nat) {
    forall u: UID ::
      if u in uids then (u in m <==> AnswerFor(answers, u) != [])
        && (u in m ==> m[u] == Entry(AnswerFor(answers, u), expiresAt, fill))
      else (u in m <==> u in entries) && (u in m ==> m[u] == entries[u])
  }

  lemma {:induction false} FilledContents(entries: map<UID, Entry>, uids: seq<UID>, answers: map<UID, seq<Route>>,
      expiresAt: int, fill: nat)
    ensures FilledAs(entries, Filled(entries, uids, answers, expiresAt, fill), uids, answers, expiresAt, fill)
    decreases |uids|
  {
    if uids != [] {
      FilledContents(entries, uids[..|uids| - 1], answers, expiresAt, fill);
      assert uids == uids[..|uids| - 1] + [uids[|uids| - 1]];
    }
  }

  lemma FilledAt(entries: map<UID, Entry>, uids: seq<UID>, answers: map<UID, seq<Route>>, expiresAt: int, fill: nat,
      u: UID)
    ensures var m := Filled(entries, uids, answers, expiresAt, fill);
      if u in uids then (u in m <==> AnswerFor(answers, u) != [])
        && (u in m ==> m[u] == Entry(AnswerFor(answers, u), expiresAt, fill))
      else (u in m <==> u in entries) && (u in m ==> m[u] == entries[u])
  {
    FilledContents(entries, uids, answers, expiresAt, fill);
    hide Filled, AnswerFor;
  }

  /** The target gave these routes for the UID in the answer to fill f. */
  ghost predicate Gave(s: State, f: nat, uid: UID, routes: seq<Route>) {
    f in s.answered && uid in s.answered[f].flight.uids && AnswerFor(s.answered[f].answers, uid) == routes
  }

  /** How much room a fill asks for: a single read for one entry, a batch for one per fresh answer. */
  function Room(answers: map<UID, seq<Route>>, batch: bool): nat {
    if batch then |answers| else 1
  }

  function Completed(cfg: Config, s: State, f: nat, answers: map<UID, seq<Route>>, batch: bool): State
    requires f in s.flights
  {
    var flight := s.flights[f];
    s.(entries := Filled(Base(cfg, s.entries, Room(answers, batch)), flight.uids, answers, flight.start + cfg.ttl, f),
       flights := s.flights - {f},
       answered := s.answered[f := Answer(flight, answers)],
       largest := if Room(answers, batch) > s.largest then Room(answers, batch) else s.largest)
  }

  lemma CompletedShape(cfg: Config, s: State, f: nat, answers: map<UID, seq<Route>>, batch: bool)
    requires f in s.flights
    ensures var s', flight := Completed(cfg, s, f, answers, batch), s.flights[f];
      && s'.entries
        == Filled(Base(cfg, s.entries, Room(answers, batch)), flight.uids, answers, flight.start + cfg.ttl, f)
      && s'.flights == s.flights - {f} && s'.next == s.next && s'.answered == s.answered[f := Answer(flight, answers)]
      && s'.largest >= Room(answers, batch) && s'.largest >= s.largest
  {
    hide Filled, Base, Room;
  }

  /** A step that is not enabled changes nothing. A single read has one UID and one answer for it. */
  predicate Enabled(s: State, step: Step) {
    match step
    case Complete(f, answers, batch) => f in s.flights && (!batch ==> |s.flights[f].uids| == 1)
    case Fail(f) => f in s.flights
    case _ => true
  }

  function Do(cfg: Config, s: State, step: Step): State {
    if !Enabled(s, step) then s
    else
      match step
      case StartFill(uids, now) => s.(flights := s.flights[s.next := Flight(uids, now)], next := s.next + 1)
      case Complete(f, answers, batch) => Completed(cfg, s, f, answers, batch)
      case Fail(f) => s.(flights := s.flights - {f})
      case Invalidate(uid) => if uid == "" then s else s.(entries := s.entries - {uid})
      case Clear => s.(entries := map[])
  }

  // ---------------------------------------------------------------- what every step keeps

  /** The entry is an answer that the target gave for its UID, and expires ttl after the start of its fill. */
  ghost predicate OwnAnswer(cfg: Config, s: State, u: UID)
    requires u in s.entries
  {
    var e := s.entries[u];
    e.routes != [] && Gave(s, e.fill, u, e.routes) && e.expiresAt == s.answered[e.fill].flight.start + cfg.ttl
  }

  ghost predicate EntriesInv(cfg: Config, s: State) {
    forall u :: u in s.entries ==> OwnAnswer(cfg, s, u)
  }

  /** A fill is numbered when it starts, and is either waiting or answered, not both. */
  ghost predicate FillsInv(s: State) {
    && (forall f :: f in s.flights ==> f < s.next && f !in s.answered)
    && (forall f :: f in s.answered ==> f < s.next)
  }

  ghost predicate SizeInv(cfg: Config, s: State) {
    |s.entries| <= cfg.maxEntries || |s.entries| <= s.largest
  }

  ghost predicate Inv(cfg: Config, s: State) {
    EntriesInv(cfg, s) && SizeInv(cfg, s) && FillsInv(s)
  }

  lemma {:induction false} SubsetSize(a: set<UID>, b: set<UID>)
    requires a <= b
    ensures |a| <= |b|
    decreases |a|
  {
    if a != {} {
      var x :| x in a;
      SubsetSize(a - {x}, b - {x});
    }
  }

  lemma FilledKey(entries: map<UID, Entry>, m: map<UID, Entry>, uids: seq<UID>, answers: map<UID, seq<Route>>,
      expiresAt: int, fill: nat, u: UID)
    requires FilledAs(entries, m, uids, answers, expiresAt, fill) && u in m
    ensures u in entries || (u in answers && u in uids)
  {
  }

  /** Filling adds at most the entries that it asked room for. */
  lemma FilledSize(entries: map<UID, Entry>, m: map<UID, Entry>, uids: seq<UID>, answers: map<UID, seq<Route>>,
      expiresAt: int, fill: nat, batch: bool)
    requires FilledAs(entries, m, uids, answers, expiresAt, fill) && (!batch ==> |uids| == 1)
    ensures |m| <= |entries| + Room(answers, batch)
  {
    hide FilledAs, AnswerFor;
    var more := if batch then answers.Keys else {uids[0]};
    forall u | u in m ensures u in entries || u in more {
      FilledKey(entries, m, uids, answers, expiresAt, fill, u);
    }
    assert m.Keys <= entries.Keys + more;
    SubsetSize(m.Keys, entries.Keys + more);
    assert |entries.Keys + more| <= |entries.Keys| + |more|;
  }

  /** The entries that a fill starts from: nothing when there would be too many. */
  function Base(cfg: Config, entries: map<UID, Entry>, room: nat): map<UID, Entry> {
    if |entries| + room > cfg.maxEntries then map[] else entries
  }

  lemma BaseLeavesRoom(cfg: Config, entries: map<UID, Entry>, room: nat)
    ensures |Base(cfg, entries, room)| == 0 || |Base(cfg, entries, room)| + room <= cfg.maxEntries
  {
  }

  lemma FilledWithin(entries: map<UID, Entry>, uids: seq<UID>, answers: map<UID, seq<Route>>, expiresAt: int,
      fill: nat, batch: bool)
    requires !batch ==> |uids| == 1
    ensures |Filled(entries, uids, answers, expiresAt, fill)| <= |entries| + Room(answers, batch)
  {
    hide *;
    FilledContents(entries, uids, answers, expiresAt, fill);
    FilledSize(entries, Filled(entries, uids, answers, expiresAt, fill), uids, answers, expiresAt, fill, batch);
  }

  lemma CompleteKeepsSize(cfg: Config, s: State, f: nat, answers: map<UID, seq<Route>>, batch: bool)
    requires f in s.flights && (!batch ==> |s.flights[f].uids| == 1)
    ensures SizeInv(cfg, Completed(cfg, s, f, answers, batch))
  {
    hide *;
    CompletedShape(cfg, s, f, answers, batch);
    var flight, room := s.flights[f], Room(answers, batch);
    var base := Base(cfg, s.entries, room);
    BaseLeavesRoom(cfg, s.entries, room);
    FilledWithin(base, flight.uids, answers, flight.start + cfg.ttl, f, batch);
    WithinSize(cfg, Completed(cfg, s, f, answers, batch), |base|, room);
  }

  lemma WithinSize(cfg: Config, s: State, base: nat, room: nat)
    requires |s.entries| <= base + room && (base == 0 || base + room <= cfg.maxEntries) && s.largest >= room
    ensures SizeInv(cfg, s)
  {
  }

  lemma CompleteKeepsEntry(cfg: Config, s: State, f: nat, answers: map<UID, seq<Route>>, batch: bool, u: UID)
    requires EntriesInv(cfg, s) && f in s.flights && f !in s.answered
      && u in Completed(cfg, s, f, answers, batch).entries
    ensures OwnAnswer(cfg, Completed(cfg, s, f, answers, batch), u)
  {
    hide Completed, Filled, AnswerFor, Base, Room;
    CompletedShape(cfg, s, f, answers, batch);
    BaseForgets(cfg, s.entries, Room(answers, batch));
    FilledAt(Base(cfg, s.entries, Room(answers, batch)), s.flights[f].uids, answers, s.flights[f].start + cfg.ttl, f,
      u);
    if u !in s.flights[f].uids {
      assert OwnAnswer(cfg, s, u);
    }
  }

  lemma CompleteKeepsEntries(cfg: Config, s: State, f: nat, answers: map<UID, seq<Route>>, batch: bool)
    requires EntriesInv(cfg, s) && f in s.flights && f !in s.answered
    ensures EntriesInv(cfg, Completed(cfg, s, f, answers, batch))
  {
    hide Completed, OwnAnswer;
    forall u | u in Completed(cfg, s, f, answers, batch).entries
      ensures OwnAnswer(cfg, Completed(cfg, s, f, answers, batch), u)
    {
      CompleteKeepsEntry(cfg, s, f, answers, batch, u);
    }
  }

  lemma CompleteKeepsFills(cfg: Config, s: State, f: nat, answers: map<UID, seq<Route>>, batch: bool)
    requires FillsInv(s) && f in s.flights
    ensures f !in s.answered && FillsInv(Completed(cfg, s, f, answers, batch))
  {
    hide Completed;
    CompletedShape(cfg, s, f, answers, batch);
    hide Filled, Base, Room;
  }

  lemma CompleteKeeps(cfg: Config, s: State, f: nat, answers: map<UID, seq<Route>>, batch: bool)
    requires Inv(cfg, s) && f in s.flights && (!batch ==> |s.flights[f].uids| == 1)
    ensures Inv(cfg, Completed(cfg, s, f, answers, batch))
  {
    hide EntriesInv, SizeInv, FillsInv, Completed;
    CompleteKeepsFills(cfg, s, f, answers, batch);
    CompleteKeepsSize(cfg, s, f, answers, batch);
    CompleteKeepsEntries(cfg, s, f, answers, batch);
  }

  /** A step that adds no entry and forgets no answer keeps everything. */
  lemma ForgettingKeeps(cfg: Config, s: State, s': State)
    requires cfg.maxEntries > 0 && Inv(cfg, s) && FillsInv(s')
    requires s'.answered == s.answered && s'.largest == s.largest && |s'.entries| <= |s.entries|
    requires forall u :: u in s'.entries ==> u in s.entries && s'.entries[u] == s.entries[u]
    ensures Inv(cfg, s')
  {
    forall u | u in s'.entries ensures OwnAnswer(cfg, s', u) {
      assert OwnAnswer(cfg, s, u);
    }
  }

  lemma StepKeepsFills(cfg: Config, s: State, step: Step)
    requires FillsInv(s)
    ensures FillsInv(Do(cfg, s, step))
  {
    hide Filled, Base, Room;
  }

  /** What is left of the entries after a step that stores no answer. */
  function EntriesLeft(entries: map<UID, Entry>, step: Step): map<UID, Entry> {
    match step
    case Invalidate(uid) => if uid == "" then entries else entries - {uid}
    case Clear => map[]
    case _ => entries
  }

  lemma FewerEntries(entries: map<UID, Entry>, step: Step)
    ensures |EntriesLeft(entries, step)| <= |entries|
    ensures forall u :: u in EntriesLeft(entries, step) ==> u in entries && EntriesLeft(entries, step)[u] == entries[u]
  {
    SubsetSize(EntriesLeft(entries, step).Keys, entries.Keys);
  }

  lemma UnansweredStep(cfg: Config, s: State, step: Step)
    requires Enabled(s, step) && !step.Complete?
    ensures var s' := Do(cfg, s, step);
      s'.answered == s.answered && s'.largest == s.largest && s'.entries == EntriesLeft(s.entries, step)
  {
  }

  /** The steps that only forget entries, or touch none. */
  lemma ForgettingStep(cfg: Config, s: State, step: Step)
    requires Enabled(s, step) && !step.Complete?
    ensures var s' := Do(cfg, s, step);
      && s'.answered == s.answered && s'.largest == s.largest && |s'.entries| <= |s.entries|
      && forall u :: u in s'.entries ==> u in s.entries && s'.entries[u] == s.entries[u]
  {
    hide *;
    UnansweredStep(cfg, s, step);
    FewerEntries(s.entries, step);
  }

  lemma StepKeeps(cfg: Config, s: State, step: Step)
    requires cfg.maxEntries > 0 && Inv(cfg, s)
    ensures Inv(cfg, Do(cfg, s, step))
  {
    hide EntriesInv, SizeInv, FillsInv, Completed, Do, Enabled;
    if !Enabled(s, step) {
      DisabledStep(cfg, s, step);
    } else if step.Complete? {
      CompleteStep(cfg, s, step);
      CompleteKeeps(cfg, s, step.flight, step.answers, step.batch);
    } else {
      StepKeepsFills(cfg, s, step);
      ForgettingStep(cfg, s, step);
      ForgettingKeeps(cfg, s, Do(cfg, s, step));
    }
  }

  lemma DisabledStep(cfg: Config, s: State, step: Step)
    requires !Enabled(s, step)
    ensures Do(cfg, s, step) == s
  {
  }

  lemma CompleteStep(cfg: Config, s: State, step: Step)
    requires Enabled(s, step) && step.Complete?
    ensures step.flight in s.flights && (!step.batch ==> |s.flights[step.flight].uids| == 1)
    ensures Do(cfg, s, step) == Completed(cfg, s, step.flight, step.answers, step.batch)
  {
    hide Completed;
  }

  ghost function Run(cfg: Config, s: State, steps: seq<Step>): (r: State)
    requires cfg.maxEntries > 0 && Inv(cfg, s)
    ensures Inv(cfg, r)
    decreases |steps|
  {
    if steps == [] then s
    else
      var m := Run(cfg, s, steps[..|steps| - 1]);
      StepKeeps(cfg, m, steps[|steps| - 1]);
      Do(cfg, m, steps[|steps| - 1])
  }

  /** In every run a read finds an answer that the target gave for that UID, less than ttl after its fill began. */
  lemma HitsAreRecentAnswers(cfg: Config, steps: seq<Step>, uid: UID, now: int)
    requires cfg.maxEntries > 0
    ensures var s := Run(cfg, Init(), steps); var hit := Hit(s, uid, now);
      hit.Some? ==> exists f :: Gave(s, f, uid, hit.value) && now < s.answered[f].flight.start + cfg.ttl
  {
    var s := Run(cfg, Init(), steps);
    if Hit(s, uid, now).Some? {
      assert OwnAnswer(cfg, s, uid);
      assert Gave(s, s.entries[uid].fill, uid, s.entries[uid].routes);
    }
  }

  /** In every run the size is at most the limit, or the largest number of fresh answers of one fill. */
  lemma SizeIsBounded(cfg: Config, steps: seq<Step>)
    requires cfg.maxEntries > 0
    ensures var s := Run(cfg, Init(), steps);
      |s.entries| <= if s.largest > cfg.maxEntries then s.largest else cfg.maxEntries
  {
    assert Inv(cfg, Run(cfg, Init(), steps));
  }

  // ---------------------------------------------------------------- invalidation

  /** No entry and no waiting fill of the UID started before fill number t. */
  ghost predicate FreshSince(s: State, uid: UID, t: nat) {
    && (uid in s.entries ==> s.entries[uid].fill >= t)
    && (forall f :: f in s.flights && uid in s.flights[f].uids ==> f >= t)
  }

  ghost predicate Waiting(s: State, uid: UID) {
    exists f :: f in s.flights && uid in s.flights[f].uids
  }

  lemma CompleteKeepsFresh(cfg: Config, s: State, f: nat, answers: map<UID, seq<Route>>, batch: bool, uid: UID, t: nat)
    requires FreshSince(s, uid, t) && f in s.flights
    ensures FreshSince(Completed(cfg, s, f, answers, batch), uid, t)
  {
    hide Completed, Filled, AnswerFor, Base, Room;
    CompletedShape(cfg, s, f, answers, batch);
    BaseForgets(cfg, s.entries, Room(answers, batch));
    FilledAt(Base(cfg, s.entries, Room(answers, batch)), s.flights[f].uids, answers, s.flights[f].start + cfg.ttl, f,
      uid);
  }

  lemma BaseForgets(cfg: Config, entries: map<UID, Entry>, room: nat)
    ensures forall u :: u in Base(cfg, entries, room) ==> u in entries && Base(cfg, entries, room)[u] == entries[u]
  {
  }

  lemma StepKeepsFresh(cfg: Config, s: State, step: Step, uid: UID, t: nat)
    requires FreshSince(s, uid, t) && t <= s.next
    ensures FreshSince(Do(cfg, s, step), uid, t) && t <= Do(cfg, s, step).next
  {
    if step.Complete? && Enabled(s, step) {
      CompleteKeepsFresh(cfg, s, step.flight, step.answers, step.batch, uid, t);
      hide FreshSince, Filled, Base, Room;
    }
  }

  lemma {:induction false} RunKeepsFresh(cfg: Config, s: State, steps: seq<Step>, uid: UID, t: nat)
    requires cfg.maxEntries > 0 && Inv(cfg, s) && FreshSince(s, uid, t) && t <= s.next
    ensures FreshSince(Run(cfg, s, steps), uid, t) && t <= Run(cfg, s, steps).next
    decreases |steps|
  {
    if steps != [] {
      hide FreshSince, Inv;
      RunKeepsFresh(cfg, s, steps[..|steps| - 1], uid, t);
      StepKeepsFresh(cfg, Run(cfg, s, steps[..|steps| - 1]), steps[|steps| - 1], uid, t);
    }
  }

  /** A hit of a UID that is fresh since fill t is an answer of fill t or later. */
  lemma FreshHit(cfg: Config, s: State, uid: UID, t: nat, now: int)
    requires Inv(cfg, s) && FreshSince(s, uid, t)
    ensures var hit := Hit(s, uid, now);
      hit.Some? ==> exists f :: f >= t && Gave(s, f, uid, hit.value)
  {
    if Hit(s, uid, now).Some? {
      assert OwnAnswer(cfg, s, uid);
      assert Gave(s, s.entries[uid].fill, uid, s.entries[uid].routes);
    }
  }

  // ------- from fills to reads

  /** Whatever happens from s on, a read of the UID finds only answers of fill t or of later ones. */
  ghost predicate OnlyAnswersSince(cfg: Config, s: State, uid: UID, t: nat)
    requires cfg.maxEntries > 0 && Inv(cfg, s)
  {
    forall later: seq<Step>, now: int ::
      var end := Run(cfg, s, later);
      Hit(end, uid, now).Some? ==> exists f :: f >= t && Gave(end, f, uid, Hit(end, uid, now).value)
  }

  /** An entry of an old fill is found at once. */
  lemma OldEntryIsFound(cfg: Config, s: State, uid: UID, t: nat)
    requires cfg.maxEntries > 0 && Inv(cfg, s) && t == s.next && uid in s.entries && s.entries[uid].fill < t
    ensures !OnlyAnswersSince(cfg, s, uid, t)
  {
    assert Run(cfg, s, []) == s;
    var now := s.entries[uid].expiresAt - 1;
    assert Hit(s, uid, now) == Some(s.entries[uid].routes);
    assert forall f :: f in s.answered ==> f < t;
    hide Run, Inv;
  }

  lemma RunOne(cfg: Config, s: State, step: Step)
    requires cfg.maxEntries > 0 && Inv(cfg, s)
    ensures Run(cfg, s, [step]) == Do(cfg, s, step)
  {
    assert [step][..0] == [];
    assert Run(cfg, s, []) == s;
    hide Do, Inv;
  }

  /** When a waiting fill is answered, a read finds that answer. */
  lemma LateAnswerIsFound(cfg: Config, s: State, f: nat, uid: UID, answers: map<UID, seq<Route>>)
    requires FillsInv(s) && f in s.flights && uid in s.flights[f].uids && AnswerFor(answers, uid) != []
    ensures var end := Do(cfg, s, Complete(f, answers, true));
      && Hit(end, uid, s.flights[f].start + cfg.ttl - 1) == Some(AnswerFor(answers, uid))
      && forall g :: g in end.answered ==> g < s.next
  {
    hide *;
    DoCompletes(cfg, s, f, answers);
    CompletedShape(cfg, s, f, answers, true);
    FilledAt(Base(cfg, s.entries, Room(answers, true)), s.flights[f].uids, answers, s.flights[f].start + cfg.ttl, f,
      uid);
    FoundBeforeExpiry(Do(cfg, s, Complete(f, answers, true)), uid, AnswerFor(answers, uid),
      s.flights[f].start + cfg.ttl, f);
    AnsweredAreNumbered(s, f);
  }

  lemma DoCompletes(cfg: Config, s: State, f: nat, answers: map<UID, seq<Route>>)
    requires f in s.flights
    ensures Do(cfg, s, Complete(f, answers, true)) == Completed(cfg, s, f, answers, true)
  {
    hide Completed;
  }

  lemma FoundBeforeExpiry(s: State, uid: UID, routes: seq<Route>, expiresAt: int, fill: nat)
    requires uid in s.entries && s.entries[uid] == Entry(routes, expiresAt, fill)
    ensures Hit(s, uid, expiresAt - 1) == Some(routes)
  {
  }

  lemma AnsweredAreNumbered(s: State, f: nat)
    requires FillsInv(s) && f in s.flights
    ensures f < s.next && forall g :: g in s.answered ==> g < s.next
  {
  }

  /** A waiting fill of an old number may still cache what the target told it. */
  lemma OldFillIsFound(cfg: Config, s: State, f: nat, uid: UID, t: nat)
    requires cfg.maxEntries > 0 && Inv(cfg, s) && t == s.next && f in s.flights && uid in s.flights[f].uids
    ensures !OnlyAnswersSince(cfg, s, uid, t)
  {
    var answers := map[uid := [0]];
    var now := s.flights[f].start + cfg.ttl - 1;
    assert FillsInv(s);
    assert AnswerFor(answers, uid) == [0];
    hide *;
    LateAnswerIsFound(cfg, s, f, uid, answers);
    RunOne(cfg, s, Complete(f, answers, true));
    FoundIsNotSince(cfg, s, uid, t, [Complete(f, answers, true)], now);
  }

  /** A hit is no answer since fill t when every fill that was answered is an older one. */
  lemma FoundIsNotSince(cfg: Config, s: State, uid: UID, t: nat, later: seq<Step>, now: int)
    requires cfg.maxEntries > 0 && Inv(cfg, s)
    requires Hit(Run(cfg, s, later), uid, now).Some? && forall f :: f in Run(cfg, s, later).answered ==> f < t
    ensures !OnlyAnswersSince(cfg, s, uid, t)
  {
    hide Run, Inv, Hit;
    var end := Run(cfg, s, later);
    assert forall f :: f >= t ==> !Gave(end, f, uid, Hit(end, uid, now).value);
  }

  /** Later reads find only newer answers if and only if everything cached or waiting now is as new. */
  lemma OnlyAnswersSinceExactly(cfg: Config, s: State, uid: UID, t: nat)
    requires cfg.maxEntries > 0 && Inv(cfg, s) && t == s.next
    ensures OnlyAnswersSince(cfg, s, uid, t) <==> FreshSince(s, uid, t)
  {
    hide Run, Inv;
    if FreshSince(s, uid, t) {
      forall later: seq<Step>, now: int
        ensures var end := Run(cfg, s, later);
          Hit(end, uid, now).Some? ==> exists f :: f >= t && Gave(end, f, uid, Hit(end, uid, now).value)
      {
        RunKeepsFresh(cfg, s, later, uid, t);
        FreshHit(cfg, Run(cfg, s, later), uid, t, now);
      }
    } else if uid in s.entries && s.entries[uid].fill < t {
      OldEntryIsFound(cfg, s, uid, t);
    } else {
      var f :| f in s.flights && uid in s.flights[f].uids && f < t;
      OldFillIsFound(cfg, s, f, uid, t);
    }
  }

  /** What is left of a UID after its invalidation: nothing old, unless a fill waits or it is the empty UID. */
  lemma InvalidateLeaves(cfg: Config, s: State, uid: UID)
    requires Inv(cfg, s)
    ensures FreshSince(Do(cfg, s, Invalidate(uid)), uid, s.next)
      <==> !Waiting(s, uid) && (uid != "" || uid !in s.entries)
    ensures Do(cfg, s, Invalidate(uid)).next == s.next
  {
    var s' := Do(cfg, s, Invalidate(uid));
    assert s'.flights == s.flights;
    if Waiting(s, uid) {
      var f :| f in s.flights && uid in s.flights[f].uids;
      assert f in s'.flights && f < s.next;
    } else if uid == "" && uid in s.entries {
      assert OwnAnswer(cfg, s, uid);
    }
  }

  /**
   After a register or unregister of a UID, every later read of it finds only answers of fills
   that started after the invalidation if and only if no fill of the UID was waiting, and it is
   not the empty UID with an entry in the cache.
   */
  lemma InvalidateExactly(cfg: Config, s: State, uid: UID)
    requires cfg.maxEntries > 0 && Inv(cfg, s)
    ensures Inv(cfg, Do(cfg, s, Invalidate(uid)))
    ensures OnlyAnswersSince(cfg, Do(cfg, s, Invalidate(uid)), uid, s.next)
            <==> !Waiting(s, uid) && (uid != "" || uid !in s.entries)
  {
    StepKeeps(cfg, s, Invalidate(uid));
    InvalidateLeaves(cfg, s, uid);
    hide *;
    OnlyAnswersSinceExactly(cfg, Do(cfg, s, Invalidate(uid)), uid, s.next);
  }

  lemma ClearLeaves(cfg: Config, s: State, uid: UID)
    requires Inv(cfg, s)
    ensures FreshSince(Do(cfg, s, Clear), uid, s.next) <==> !Waiting(s, uid)
    ensures Do(cfg, s, Clear).next == s.next
  {
    var s' := Do(cfg, s, Clear);
    assert s'.flights == s.flights;
    if Waiting(s, uid) {
      var f :| f in s.flights && uid in s.flights[f].uids;
      assert f in s'.flights && f < s.next;
    }
  }

  /** After a replay the same holds of a UID, also of the empty one, if and only if no fill of it was waiting. */
  lemma ClearExactly(cfg: Config, s: State, uid: UID)
    requires cfg.maxEntries > 0 && Inv(cfg, s)
    ensures Inv(cfg, Do(cfg, s, Clear))
    ensures OnlyAnswersSince(cfg, Do(cfg, s, Clear), uid, s.next) <==> !Waiting(s, uid)
  {
    StepKeeps(cfg, s, Clear);
    ClearLeaves(cfg, s, uid);
    hide *;
    OnlyAnswersSinceExactly(cfg, Do(cfg, s, Clear), uid, s.next);
  }

  /**
   After a register or unregister of a non-empty UID the next read goes to the target, whenever
   it comes, and no other UID is affected; with no fill of it waiting, whatever is found later
   is an answer of a later fill. After a replay this holds of every UID.
   */
  lemma NextReadAsksTarget(cfg: Config, s: State, uid: UID, now: int)
    requires cfg.maxEntries > 0 && Inv(cfg, s) && uid != ""
    ensures Inv(cfg, Do(cfg, s, Invalidate(uid)))
    ensures Hit(Do(cfg, s, Invalidate(uid)), uid, now) == None
    ensures forall u :: u != uid ==> Hit(Do(cfg, s, Invalidate(uid)), u, now) == Hit(s, u, now)
    ensures !Waiting(s, uid) ==> OnlyAnswersSince(cfg, Do(cfg, s, Invalidate(uid)), uid, s.next)
    ensures forall u :: Hit(Do(cfg, s, Clear), u, now) == None
  {
    hide Inv, OnlyAnswersSince;
    InvalidateExactly(cfg, s, uid);
  }

  // ------- two runs in which an invalidation comes to nothing

  lemma RunSnoc(cfg: Config, s: State, steps: seq<Step>, step: Step)
    requires cfg.maxEntries > 0 && Inv(cfg, s)
    ensures Run(cfg, s, steps + [step]) == Do(cfg, Run(cfg, s, steps), step)
  {
    assert (steps + [step])[..|steps|] == steps;
  }

  lemma InitKeeps(cfg: Config)
    requires cfg.maxEntries > 0
    ensures Inv(cfg, Init())
  {
  }

  lemma OneFillStarted(cfg: Config, uid: UID)
    requires cfg.maxEntries > 0
    ensures Run(cfg, Init(), [StartFill([uid], 0)]) == State(map[], map[0 := Flight([uid], 0)], 1, map[], 0)
  {
    RunOne(cfg, Init(), StartFill([uid], 0));
    assert map[][0 := Flight([uid], 0)] == map[0 := Flight([uid], 0)];
    hide Run, Inv;
  }

  /** A user goes online while an earlier lookup of the user still waits: the route of before is cached and found. */
  lemma StaleAnswerIsFound(cfg: Config, uid: UID, before: Route)
    requires cfg.maxEntries > 0 && cfg.ttl > 0
    ensures var steps := [StartFill([uid], 0), Invalidate(uid), Complete(0, map[uid := [before]], true)];
      && Hit(Run(cfg, Init(), steps), uid, cfg.ttl - 1) == Some([before])
      && Run(cfg, Init(), steps).next == 1
  {
    hide Run, Inv, Completed, Filled, Base, Room;
    InitKeeps(cfg);
    OneFillStarted(cfg, uid);
    var one := [StartFill([uid], 0)];
    var s := Run(cfg, Init(), one);
    RunSnoc(cfg, Init(), one, Invalidate(uid));
    assert s.entries - {uid} == map[];
    assert Do(cfg, s, Invalidate(uid)) == s;
    RunSnoc(cfg, Init(), one + [Invalidate(uid)], Complete(0, map[uid := [before]], true));
    LateAnswerIsFound(cfg, s, 0, uid, map[uid := [before]]);
    CompletedShape(cfg, s, 0, map[uid := [before]], true);
    assert one + [Invalidate(uid)] + [Complete(0, map[uid := [before]], true)]
        == [StartFill([uid], 0), Invalidate(uid), Complete(0, map[uid := [before]], true)];
  }

  /** The empty UID keeps its entry through a register or unregister. */
  lemma EmptyUIDIsKept(cfg: Config, before: Route)
    requires cfg.maxEntries > 0 && cfg.ttl > 0
    ensures var steps := [StartFill([""], 0), Complete(0, map["" := [before]], true), Invalidate("")];
      && Hit(Run(cfg, Init(), steps), "", cfg.ttl - 1) == Some([before])
      && Run(cfg, Init(), steps).next == 1
  {
    hide Run, Inv, Completed, Filled, Base, Room;
    InitKeeps(cfg);
    OneFillStarted(cfg, "");
    var one, done := [StartFill([""], 0)], Complete(0, map["" := [before]], true);
    var s := Run(cfg, Init(), one);
    RunSnoc(cfg, Init(), one, done);
    LateAnswerIsFound(cfg, s, 0, "", map["" := [before]]);
    CompletedShape(cfg, s, 0, map["" := [before]], true);
    RunSnoc(cfg, Init(), one + [done], Invalidate(""));
    assert one + [done] + [Invalidate("")] == [StartFill([""], 0), done, Invalidate("")];
  }

  // ---------------------------------------------------------------- the cache object

  datatype Cached = Cached(routes: seq<Route>, expiresAt: int)

  function Forget(entries: map<UID, Entry>): map<UID, Cached> {
    map u | u in entries :: Cached(entries[u].routes, entries[u].expiresAt)
  }

  /** The UIDs of a list that a read does not find, in order. */
  function Misses(s: State, uids: seq<UID>, now: int): seq<UID>
    decreases |uids|
  {
    if uids == [] then []
    else
      Misses(s, uids[..|uids| - 1], now) + if Hit(s, uids[|uids| - 1], now).None? then [uids[|uids| - 1]] else []
  }

  lemma {:induction false} MissesMembers(s: State, uids: seq<UID>, now: int)
    ensures forall u :: u in Misses(s, uids, now) <==> u in uids && Hit(s, u, now).None?
    decreases |uids|
  {
    if uids != [] {
      MissesMembers(s, uids[..|uids| - 1], now);
      assert uids == uids[..|uids| - 1] + [uids[|uids| - 1]];
    }
  }

  /** The cache holds the answers for the first k UIDs. */
  ghost predicate HoldsFirst(held: map<UID, Cached>, entries: map<UID, Entry>, uids: seq<UID>, k: nat,
      answers: map<UID, seq<Route>>,
                             expiresAt: int, fill: nat) {
    k <= |uids| && held == Forget(Filled(entries, uids[..k], answers, expiresAt, fill))
  }

  lemma HoldsOneMore(held: map<UID, Cached>, entries: map<UID, Entry>, uids: seq<UID>, k: nat,
      answers: map<UID, seq<Route>>,
                     expiresAt: int, fill: nat)
    requires HoldsFirst(held, entries, uids, k, answers, expiresAt, fill) && k < |uids|
    ensures var routes := AnswerFor(answers, uids[k]);
      HoldsFirst(if routes == [] then held - {uids[k]} else held[uids[k] := Cached(routes, expiresAt)],
                 entries, uids, k + 1, answers, expiresAt, fill)
  {
    assert uids[..k + 1][..k] == uids[..k];
  }

  lemma HoldsAll(held: map<UID, Cached>, entries: map<UID, Entry>, uids: seq<UID>, answers: map<UID, seq<Route>>,
      expiresAt: int, fill: nat)
    ensures HoldsFirst(held, entries, uids, |uids|, answers, expiresAt, fill)
      <==> held == Forget(Filled(entries, uids, answers, expiresAt, fill))
    ensures HoldsFirst(held, entries, uids, 0, answers, expiresAt, fill) <==> held == Forget(entries)
  {
    assert uids[..|uids|] == uids;
  }

  lemma SameSize(entries: map<UID, Entry>)
    ensures |Forget(entries)| == |entries|
  {
    assert Forget(entries).Keys == entries.Keys;
    assert |Forget(entries).Keys| == |entries.Keys|;
  }

  /** The cache with its real entries; the ghost state numbers the fills and keeps what the target gave. */
  class DeliveryPresenceCache {
    const cfg: Config
    var entries: map<UID, Cached>
    ghost var s: State

    constructor (ttl: int, maxEntries: int)
      ensures Valid() && s == Init() && cfg == Config(ttl, if maxEntries <= 0 then 65536 else maxEntries)
    {
      cfg, entries, s := Config(ttl, if maxEntries <= 0 then 65536 else maxEntries), map[], Init();
    }

    ghost predicate Valid()
      reads this
    {
      cfg.maxEntries > 0 && entries == Forget(s.entries) && Inv(cfg, s)
    }

    /** Looks up a list of UIDs: the answers found, and the UIDs to ask the target for. */
    method LookupMany(uids: seq<UID>, now: int) returns (out: map<UID, seq<Route>>, missing: seq<UID>)
      requires Valid()
      ensures missing == Misses(s, uids, now)
      ensures forall u :: u in out <==> u in uids && Hit(s, u, now).Some?
      ensures forall u :: u in out ==> Hit(s, u, now) == Some(out[u])
    {
      out, missing := map[], [];
      hide Inv;
      for k := 0 to |uids|
        invariant missing == Misses(s, uids[..k], now)
        invariant forall u :: u in out <==> u in uids[..k] && Hit(s, u, now).Some?
        invariant forall u :: u in out ==> Hit(s, u, now) == Some(out[u])
      {
        assert uids[..k + 1] == uids[..k] + [uids[k]] && uids[..k + 1][..k] == uids[..k];
        var uid := uids[k];
        if uid in entries && now < entries[uid].expiresAt {
          out := out[uid := entries[uid].routes];
        } else {
          missing := missing + [uid];
        }
      }
      assert uids[..|uids|] == uids;
    }

    /** The first half of a miss. */
    ghost method Start(uids: seq<UID>, now: int) returns (flight: nat)
      requires Valid()
      modifies this`s
      ensures Valid() && s == Do(cfg, old(s), StartFill(uids, now)) && flight == old(s).next
      ensures flight in s.flights && s.flights[flight] == Flight(uids, now)
    {
      StepKeeps(cfg, s, StartFill(uids, now));
      hide Inv;
      flight := s.next;
      s := Do(cfg, s, StartFill(uids, now));
    }

    /**
     With too many entries all of them go first. Then each UID of the list has its answer until ttl
     after the start, or no entry when that is empty; other UIDs are as before.
     */
    ghost predicate Stores(before: map<UID, Cached>, after: map<UID, Cached>, uids: seq<UID>,
        answers: map<UID, seq<Route>>, start: int, room: nat) {
      var kept := if |before| + room > cfg.maxEntries then map[] else before;
      forall u ::
        if u !in uids then (u in after <==> u in kept) && (u in after ==> after[u] == kept[u])
        else if u in answers && answers[u] != [] then u in after && after[u] == Cached(answers[u], start + cfg.ttl)
        else u !in after
    }

    lemma ForgottenStores(before: map<UID, Entry>, uids: seq<UID>, answers: map<UID, seq<Route>>, start: int,
        room: nat, fill: nat)
      ensures Stores(Forget(before),
        Forget(Filled(Base(cfg, before, room), uids, answers, start + cfg.ttl, fill)), uids, answers, start, room)
    {
      SameSize(before);
      FilledContents(Base(cfg, before, room), uids, answers, start + cfg.ttl, fill);
      hide Filled;
    }

    /** The second half: stores the answers, dropping everything first when there would be too much. */
    method Store(ghost flight: nat, uids: seq<UID>, start: int, answers: map<UID, seq<Route>>, batch: bool)
      requires Valid() && flight in s.flights && s.flights[flight].uids == uids && s.flights[flight].start == start
      requires !batch ==> |uids| == 1
      modifies this
      ensures Valid() && s == Do(cfg, old(s), Complete(flight, answers, batch))
      ensures Stores(old(entries), entries, uids, answers, start, if batch then |answers| else 1)
    {
      hide Inv, Forget, Filled, Base, Room, Do, Completed, AnswerFor, HoldsFirst;
      ghost var base := Base(cfg, s.entries, Room(answers, batch));
      StoreStarts(s, entries, answers, batch);
      if |entries| + Room(answers, batch) > cfg.maxEntries {
        entries := map[];
      }
      HoldsAll(entries, base, uids, answers, start + cfg.ttl, flight);
      for k: nat := 0 to |uids|
        invariant s == old(s) && HoldsFirst(entries, base, uids, k, answers, start + cfg.ttl, flight)
      {
        HoldsOneMore(entries, base, uids, k, answers, start + cfg.ttl, flight);
        var uid := uids[k];
        var routes := AnswerFor(answers, uid);
        if routes == [] {
          entries := entries - {uid};
          continue;
        }
        entries := entries[uid := Cached(routes, start + cfg.ttl)];
      }
      HoldsAll(entries, base, uids, answers, start + cfg.ttl, flight);
      StoreEnds(s, entries, flight, answers, batch);
      ForgottenStores(s.entries, uids, answers, start, Room(answers, batch), flight);
      RoomIs(answers, batch);
      s := Do(cfg, s, Complete(flight, answers, batch));
    }

    lemma StoreStarts(before: State, held: map<UID, Cached>, answers: map<UID, seq<Route>>, batch: bool)
      requires held == Forget(before.entries)
      ensures Forget(Base(cfg, before.entries, Room(answers, batch))) ==
        if |held| + Room(answers, batch) > cfg.maxEntries then map[] else held
    {
      SameSize(before.entries);
      hide Room, Forget;
      ForgetNothing();
    }

    lemma StoreEnds(before: State, held: map<UID, Cached>, flight: nat, answers: map<UID, seq<Route>>, batch: bool)
      requires cfg.maxEntries > 0 && Inv(cfg, before) && flight in before.flights
        && (!batch ==> |before.flights[flight].uids| == 1)
      requires var base := Base(cfg, before.entries, Room(answers, batch)); var f := before.flights[flight];
        held == Forget(Filled(base, f.uids, answers, f.start + cfg.ttl, flight))
      ensures var after := Do(cfg, before, Complete(flight, answers, batch));
        Inv(cfg, after) && held == Forget(after.entries)
    {
      hide Inv, Filled, Base, Room, Forget, Completed;
      StepKeeps(cfg, before, Complete(flight, answers, batch));
      assert Do(cfg, before, Complete(flight, answers, batch)) == Completed(cfg, before, flight, answers, batch);
      hide Do;
      CompletedShape(cfg, before, flight, answers, batch);
    }

    lemma RoomIs(answers: map<UID, seq<Route>>, batch: bool)
      ensures Room(answers, batch) == if batch then |answers| else 1
    {
    }

    lemma ForgetOne(before: map<UID, Entry>, uid: UID)
      ensures Forget(before - {uid}) == Forget(before) - {uid}
    {
    }

    lemma ForgetNothing()
      ensures Forget(map[]) == map[]
    {
    }

    /** A read of one UID; the target answers at most once, and an error caches nothing. */
    method EndpointsByUID(uid: UID, now: int, answer: Option<seq<Route>>) returns (r: Option<seq<Route>>)
      requires Valid()
      modifies this
      ensures Valid()
      ensures Hit(old(s), uid, now).Some? ==> r == Hit(old(s), uid, now) && s == old(s)
      ensures Hit(old(s), uid, now).None? ==>
        r == answer
        && Ended(old(s), s, [uid], now, answer.Some?, map[uid := if answer.Some? then answer.value else []], false)
      ensures
        if uid in old(entries) && now < old(entries)[uid].expiresAt then
          r == Some(old(entries)[uid].routes) && entries == old(entries)
        else
          r == answer
            && if answer.Some? then Stores(old(entries), entries, [uid], map[uid := answer.value], now, 1)
               else entries == old(entries)
    {
      if uid in entries && now < entries[uid].expiresAt {
        return Some(entries[uid].routes);
      }
      ghost var flight := Start([uid], now);
      if answer.None? {
        EndFailed(flight);
        return None;
      }
      Store(flight, [uid], now, map[uid := answer.value], false);
      return answer;
    }

    /** A miss that started, was answered or failed, and ended, with nothing in between. */
    ghost predicate Ended(before: State, after: State, uids: seq<UID>, now: int, answered: bool,
        answers: map<UID, seq<Route>>, batch: bool) {
      var started := Do(cfg, before, StartFill(uids, now));
      after == Do(cfg, started, if answered then Complete(before.next, answers, batch) else Fail(before.next))
    }

    ghost method EndFailed(flight: nat)
      requires Valid()
      modifies this`s
      ensures Valid() && s == Do(cfg, old(s), Fail(flight)) && entries == old(entries)
    {
      StepKeeps(cfg, s, Fail(flight));
      hide Inv;
      s := Do(cfg, s, Fail(flight));
    }

    /** A read of many UIDs: each gets its cached answer or a fresh one, and only the misses are asked for. */
    method EndpointsByUIDs(uids: seq<UID>, now: int,
        answer: Option<map<UID, seq<Route>>>) returns (r: Option<map<UID, seq<Route>>>)
      requires Valid()
      modifies this
      ensures Valid()
      ensures var missing := Misses(old(s), uids, now);
        && (r.None? <==> missing != [] && answer.None?)
        && (r.Some? ==> r.value.Keys == (set u | u in uids))
        && (r.Some? ==> forall u :: u in uids ==>
              r.value[u] == if Hit(old(s), u, now).Some? then Hit(old(s), u, now).value
                            else if answer.Some? then AnswerFor(answer.value, u) else [])
        && (if missing == [] then s == old(s)
            else Ended(old(s), s, missing, now, answer.Some?, if answer.Some? then answer.value else map[], true))
      ensures var missing := Misses(old(s), uids, now);
        if missing != [] && answer.Some? then
          Stores(old(entries), entries, missing, answer.value, now, |answer.value|)
        else entries == old(entries)
    {
      hide *;
      if uids == [] {
        NothingMissing(s, now);
        return Some(map[]);
      }
      var out, missing := LookupMany(uids, now);
      MissesMembers(s, uids, now);
      if missing == [] {
        assert forall u :: u in uids ==> u in out;
        return Some(out);
      }
      var ok := AskTarget(missing, now, answer);
      if !ok {
        return None;
      }
      out := AddAnswers(out, missing, answer.value);
      return Some(out);
    }

    lemma NothingMissing(before: State, now: int)
      ensures Misses(before, [], now) == []
    {
    }

    /** The miss part of a batch read: asks the target for all misses at once and stores its answers. */
    method AskTarget(missing: seq<UID>, now: int, answer: Option<map<UID, seq<Route>>>) returns (ok: bool)
      requires Valid()
      modifies this
      ensures Valid() && ok == answer.Some?
      ensures
        if ok then Stores(old(entries), entries, missing, answer.value, now, |answer.value|)
        else entries == old(entries)
      ensures Ended(old(s), s, missing, now, answer.Some?, if answer.Some? then answer.value else map[], true)
    {
      hide Inv, Do, Completed, Forget;
      ghost var flight := Start(missing, now);
      if answer.None? {
        EndFailed(flight);
        return false;
      }
      Store(flight, missing, now, answer.value, true);
      return true;
    }

    method AddAnswers(found: map<UID, seq<Route>>, missing: seq<UID>,
        answers: map<UID, seq<Route>>) returns (out: map<UID, seq<Route>>)
      ensures forall u :: u in out <==> u in found || u in missing
      ensures forall u :: u in out ==> out[u] == if u in missing then AnswerFor(answers, u) else found[u]
    {
      out := found;
      for k := 0 to |missing|
        invariant forall u :: u in out <==> u in found || u in missing[..k]
        invariant forall u :: u in out ==> out[u] == if u in missing[..k] then AnswerFor(answers, u) else found[u]
      {
        assert missing[..k + 1] == missing[..k] + [missing[k]];
        out := out[missing[k] := AnswerFor(answers, missing[k])];
      }
      assert missing[..|missing|] == missing;
    }

    /** What register and unregister do to the cache, whatever the target said. */
    method InvalidateUID(uid: UID)
      requires Valid()
      modifies this
      ensures Valid() && s == Do(cfg, old(s), Invalidate(uid))
      ensures entries == if uid == "" then old(entries) else old(entries) - {uid}
    {
      StepKeeps(cfg, s, Invalidate(uid));
      ForgetOne(s.entries, uid);
      hide Inv, Forget;
      if uid == "" {
        return;
      }
      entries := entries - {uid};
      s := Do(cfg, s, Invalidate(uid));
    }

    /** What a replay does to the cache. */
    method ClearAll()
      requires Valid()
      modifies this
      ensures Valid() && s == Do(cfg, old(s), Clear)
      ensures entries == map[]
    {
      StepKeeps(cfg, s, Clear);
      ForgetNothing();
      hide Inv, Forget;
      entries := map[];
      s := Do(cfg, s, Clear);
    }
  }
}
