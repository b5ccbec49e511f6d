// The Olm messages of whole runs: what every step of the protocol does to the Olm sessions, and how often one message
// creates a session.
module OlmInRuns {
  import opened Wrappers
  import opened Events
  import opened SyncResponses
  import opened SyncStore
  import opened Crypto
  import opened EventDecryption
  import opened SyncService
  import opened BackgroundSync

  // The stores without their Megolm keys.
  function OlmPart(c: Stores): Stores {
    c.(bgKeys := map[], appKeys := map[])
  }

  function AfterAll(o: Oracle, c: Stores, steps: seq<OlmStep>): Stores
    decreases steps
  {
    if steps == [] then c else AfterAll(o, AfterOlm(o, c, steps[0]), steps[1..])
  }

  lemma {:induction false} AfterAllJoined(o: Oracle, c: Stores, a: seq<OlmStep>, b: seq<OlmStep>)
    ensures AfterAll(o, c, a + b) == AfterAll(o, AfterAll(o, c, a), b)
    decreases a
  {
    if a == [] {
      assert a + b == b;
    } else {
      hide AfterOlm;
      assert (a + b)[1..] == a[1..] + b;
      AfterAllJoined(o, AfterOlm(o, c, a[0]), a[1..], b);
    }
  }

  // ---- One message ----

  lemma {:induction false} TrySessionsOlmPart(o: Oracle, c: Stores, ids: seq<string>, device: string, m: OlmMessage)
    ensures var (c', verdict) := TrySessions(o, c, ids, device, m);
            TrySessions(o, OlmPart(c), ids, device, m) == (OlmPart(c'), verdict)
    decreases ids
  {
    if ids != [] {
      var next := Tick(TransferOlm(c, device, ids[0]));
      assert Tick(TransferOlm(OlmPart(c), device, ids[0])) == OlmPart(next);
      TrySessionsOlmPart(o, next, ids[1..], device, m);
    }
  }

  lemma DecryptOlmPart(o: Oracle, c: Stores, device: string, m: OlmMessage)
    ensures DecryptOlm(o, OlmPart(c), device, m).0 == OlmPart(DecryptOlm(o, c, device, m).0)
  {
    assert Known(OlmPart(c), device) == Known(c, device);
    TrySessionsOlmPart(o, c, Known(c, device), device, m);
    hide TrySessions, Known;
  }

  /** The Olm message in an event, if its decryption gets as far as that. */
  function Arrivals(o: Oracle, e: MXEvent): seq<OlmStep>
    requires e.IsEncrypted() ==> HasContent(e)
  {
    if e.IsEncrypted() && e.Content().value.senderKey.Some? && e.Content().value.algorithm == Some(OLM)
      && OlmMessageFor(o, e).Some?
    then [Arrive(Delivery(e.Content().value.senderKey.value, OlmMessageFor(o, e).value))]
    else []
  }

  lemma DecryptArrives(o: Oracle, c: Stores, e: MXEvent)
    requires e.IsEncrypted() ==> HasContent(e)
    ensures OlmPart(Decrypt(o, c, e).stores) == AfterAll(o, OlmPart(c), Arrivals(o, e))
  {
    OlmIsNotMegolm();
    if Arrivals(o, e) != [] {
      var d := Arrivals(o, e)[0].delivery;
      DecryptOlmPart(o, c, d.device, d.message);
      assert Arrivals(o, e)[1..] == [];
    }
    hide DecryptOlm;
  }

  lemma HandlingArrives(o: Oracle, c: Stores, e: MXEvent)
    requires e.IsEncrypted() ==> HasContent(e)
    ensures OlmPart(HandleToDevice(o, c, e).stores) == AfterAll(o, OlmPart(c), Arrivals(o, e))
  {
    DecryptArrives(o, c, e);
    hide Decrypt, Arrivals, Extract;
  }

  // ---- One step ----

  function Attempt(o: Oracle, l: Local, obj: nat): seq<OlmStep>
    requires obj < |l.service.objects|
  {
    var e := l.service.objects[obj];
    if e.Readable() || !CanDecrypt(l.stores, e) then [] else Arrivals(o, e)
  }

  lemma HandleEncryptionArrives(o: Oracle, l: Local, r: Request, obj: nat, allowSync: bool)
    requires obj < |l.service.objects|
    ensures OlmPart(HandleEncryption(o, l, r, obj, allowSync).stores)
            == AfterAll(o, OlmPart(l.stores), Attempt(o, l, obj))
  {
    var e := l.service.objects[obj];
    if !e.Readable() {
      DecryptArrives(o, l.stores, e);
    }
    hide Decrypt, CanDecrypt, Arrivals;
  }

  function AskSteps(o: Oracle, l: Local, r: Request): seq<OlmStep>
    requires l.service.Valid()
  {
    if r.eventId in l.service.cachedEvents then Attempt(o, l, l.service.cachedEvents[r.eventId])
    else
      match Lookup(l.store, r.eventId, r.roomId)
      case Some(e) => Attempt(o, Remember(l, r.eventId, e), |l.service.objects|)
      case None => []
  }

  lemma AskArrives(o: Oracle, l: Local, r: Request, allowSync: bool)
    requires l.service.Valid()
    ensures OlmPart(Ask(o, l, r, allowSync).stores) == AfterAll(o, OlmPart(l.stores), AskSteps(o, l, r))
  {
    hide HandleEncryption, Lookup, Attempt;
    if r.eventId in l.service.cachedEvents {
      HandleEncryptionArrives(o, l, r, l.service.cachedEvents[r.eventId], allowSync);
    } else if Lookup(l.store, r.eventId, r.roomId).Some? {
      HandleEncryptionArrives(o, Remember(l, r.eventId, Lookup(l.store, r.eventId, r.roomId).value), r,
                              |l.service.objects|, allowSync);
    }
  }

  // The request that begins, after the check of the stores.
  function Checked(l: Local, token: Option<Token>): Local
    requires l.service.queue != []
  {
    var l' := CheckStores(l, token);
    l'.(service := l'.service.(queue := l.service.queue[1..], syncs := 0, keyed := 0))
  }

  function ResetIf(reset: bool): seq<OlmStep> {
    if reset then [ResetStore] else []
  }

  /** What a step does to the Olm sessions: it decrypts a message, resets the background store where no valid response
      is cached, or opens the app's store again. */
  function OlmSteps(o: Oracle, s: System, a: Action): seq<OlmStep>
    requires Enabled(s, a)
  {
    match a
    case Init(_, appOlm) => [Reopen(appOlm)] + ResetIf(SyncToken(s.store).None?)
    case BeginRequest =>
      var l := Checked(LocalOf(s), s.session.token);
      ResetIf(l.store.ids == []) + AskSteps(o, l, s.service.value.queue[0])
    case HarvestNext => Arrivals(o, s.service.value.stage.toDevice[0])
    case ContinueRequest =>
      if KeyMayCome(LocalOf(s)) then [] else AskSteps(o, LocalOf(s), s.service.value.stage.request)
    case EventReply(Some(e)) =>
      Attempt(o, Remember(LocalOf(s), s.service.value.stage.request.eventId, e), |s.service.value.objects|)
    case _ => []
  }

  lemma ResetsIf(o: Oracle, c: Stores, reset: bool)
    ensures AfterAll(o, OlmPart(c), ResetIf(reset)) == OlmPart(if reset then Reset(c) else c)
  {
    if reset {
      assert ResetIf(reset)[1..] == [];
    }
  }

  lemma BeginArrives(o: Oracle, s: System)
    requires Enabled(s, BeginRequest)
    ensures OlmPart(Begin(o, LocalOf(s), s.session.token).stores)
            == AfterAll(o, OlmPart(s.stores), OlmSteps(o, s, BeginRequest))
  {
    var l, r := Checked(LocalOf(s), s.session.token), s.service.value.queue[0];
    hide Ask, AskSteps, MarkOutdated, Reset, AfterAll, OlmPart, ResetIf;
    ResetsIf(o, s.stores, l.store.ids == []);
    AskArrives(o, l, r, true);
    AfterAllJoined(o, OlmPart(s.stores), ResetIf(l.store.ids == []), AskSteps(o, l, r));
  }

  lemma InitArrives(o: Oracle, s: System, a: Action)
    requires a.Init? && Enabled(s, a)
    ensures OlmPart(Next(o, s, a).stores) == AfterAll(o, OlmPart(s.stores), OlmSteps(o, s, a))
  {
    var loaded := s.stores.(appKeys := a.appKeys, appOlm := a.appOlm);
    assert [Reopen(a.appOlm)][1..] == [];
    assert AfterAll(o, OlmPart(s.stores), [Reopen(a.appOlm)]) == OlmPart(loaded);
    assert Next(o, s, a).stores == if SyncToken(s.store).None? then Reset(loaded) else loaded;
    hide Next, Enabled, AfterAll, OlmPart, Reset, ResetIf;
    ResetsIf(o, loaded, SyncToken(s.store).None?);
    AfterAllJoined(o, OlmPart(s.stores), [Reopen(a.appOlm)], ResetIf(SyncToken(s.store).None?));
  }

  /** Each step of the protocol changes the Olm sessions by exactly its Olm steps. */
  lemma StepArrives(o: Oracle, s: System, a: Action)
    requires Enabled(s, a)
    ensures OlmPart(Next(o, s, a).stores) == AfterAll(o, OlmPart(s.stores), OlmSteps(o, s, a))
  {
    hide Begin, AskSteps, Attempt, Arrivals, HandleToDevice, Ask, HandleEncryption, Lookup, HandleCached, Reply,
         ReplayRooms,
         Update, DeleteStep, OlmPart;
    match a {
      case Init(_, _) => InitArrives(o, s, a);
      case BeginRequest => BeginArrives(o, s);
      case HarvestNext => HandlingArrives(o, s.stores, s.service.value.stage.toDevice[0]);
      case ContinueRequest =>
        if !KeyMayCome(LocalOf(s)) {
          AskArrives(o, LocalOf(s), s.service.value.stage.request, false);
        }
      case EventReply(Some(e)) =>
        var r := s.service.value.stage.request;
        HandleEncryptionArrives(o, Remember(LocalOf(s), r.eventId, e), r, |s.service.value.objects|, false);
      case _ =>
    }
  }

  // ---- Runs ----

  ghost function OlmRun(o: Oracle, s: System, run: seq<Action>): seq<OlmStep>
    decreases |run|
  {
    if run == [] || !Enabled(s, run[0]) then [] else OlmSteps(o, s, run[0]) + OlmRun(o, Next(o, s, run[0]), run[1..])
  }

  lemma {:induction false} RunArrives(o: Oracle, s: System, run: seq<Action>, end: System)
    requires Reaches(o, s, run, end)
    ensures OlmPart(end.stores) == AfterAll(o, OlmPart(s.stores), OlmRun(o, s, run))
    decreases |run|
  {
    if run != [] {
      StepArrives(o, s, run[0]);
      var s' := Next(o, s, run[0]);
      hide Next, Enabled, OlmSteps, OlmPart, AfterAll;
      RunArrives(o, s', run[1..], end);
      AfterAllJoined(o, OlmPart(s.stores), OlmSteps(o, s, run[0]), OlmRun(o, s', run[1..]));
    }
  }

  /** In every run the Olm sessions of the stores are those that the Olm steps of the run leave; and on them one message
      creates at most one session, and one more for each time a session of its device is forgotten. */
  lemma MessagesCreateOncePerLoss(o: Oracle, run: seq<Action>, end: System, target: Delivery)
    requires MatchesOwnPrekey(o) && Reaches(o, Start(), run, end)
    ensures var c, steps := OlmPart(Start().stores), OlmRun(o, Start(), run);
            && OlmPart(end.stores) == AfterAll(o, c, steps)
            && Creations(o, c, steps, target) <= 1 + Losses(o, c, steps, target.device)
  {
    RunArrives(o, Start(), run, end);
    ReplayCreatesOncePerLoss(o, OlmPart(Start().stores), OlmRun(o, Start(), run), target);
  }
}
