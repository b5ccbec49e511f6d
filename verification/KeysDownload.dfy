// The gathering of chunked key queries: requests in flight, replies in any order, cancellation, one final sum
// (MatrixSDK/Categories/MXRestClient+Extensions.swift).
module KeysDownload {
  import opened KeysQuery

  type Reply = Response<KeysQueryResponse>

  /** What the closures of one chunked download share. `calls` are the calls of the caller's success and failure
      blocks. */
  datatype Gather = Gather(
    chunks: seq<seq<string>>,
    group: nat,           // count of the dispatch group
    replied: seq<nat>,    // chunks whose reply has arrived, in order of arrival
    responses: seq<Reply>,
    cancelled: bool,
    notified: bool,       // the notify block of the group has run
    calls: seq<Reply>)

  datatype Step = ChunkReply(chunk: nat, response: Reply) | Cancel | Notify

  function Start(users: seq<string>, chunkSize: int): Gather
    requires chunkSize != 0
  {
    var chunks := Chunked(users, chunkSize);
    Gather(chunks, |chunks|, [], [], false, false, [])
  }

  /** Each request replies once; the notify block runs once, some time after the group has emptied. */
  predicate Enabled(g: Gather, step: Step) {
    match step
    case ChunkReply(i, _) => i < |g.chunks| && i !in g.replied && g.group > 0
    case Cancel => true
    case Notify => g.group == 0 && !g.notified
  }

  function Next(g: Gather, step: Step): Gather
    requires Enabled(g, step)
  {
    match step
    case ChunkReply(i, r) => g.(group := g.group - 1, replied := g.replied + [i], responses := g.responses + [r])
    case Cancel => g.(cancelled := true)
    case Notify => g.(notified := true, calls := if g.cancelled then g.calls else g.calls + [Reduce(g.responses)])
  }

  ghost predicate Reaches(g: Gather, steps: seq<Step>, end: Gather)
    decreases |steps|
  {
    if steps == [] then g == end
    else Enabled(g, steps[0]) && Reaches(Next(g, steps[0]), steps[1..], end)
  }

  ghost predicate Inv(g: Gather) {
    && |g.replied| == |g.responses| && g.group + |g.replied| == |g.chunks|
    && (forall i | 0 <= i < |g.replied| :: g.replied[i] < |g.chunks|)
    && (forall i, j | 0 <= i < j < |g.replied| :: g.replied[i] != g.replied[j])
    && (g.notified ==> g.group == 0)
    && (g.calls != [] ==> g.notified && g.calls == [Reduce(g.responses)])
    && (g.notified && !g.cancelled ==> g.calls != [])
  }

  lemma {:induction false} InvHolds(g: Gather, steps: seq<Step>, end: Gather)
    requires Inv(g) && Reaches(g, steps, end)
    ensures Inv(end)
    decreases |steps|
  {
    if steps != [] {
      InvHolds(Next(g, steps[0]), steps[1..], end);
    }
  }

  /** Under every schedule: the caller hears at most once, and only of the sum of one reply from every chunk.
      If nobody has cancelled by the time the group's block has run, the caller has heard exactly once. */
  lemma GatherIsSafe(users: seq<string>, chunkSize: int, steps: seq<Step>, end: Gather)
    requires chunkSize != 0 && Reaches(Start(users, chunkSize), steps, end)
    ensures |end.calls| <= 1
    ensures end.calls != [] ==>
              end.calls == [Reduce(end.responses)] && forall i | 0 <= i < |end.chunks| :: i in end.replied
    ensures end.notified && !end.cancelled ==> |end.calls| == 1
    ensures end.calls != [] ==> end.notified
  {
    InvHolds(Start(users, chunkSize), steps, end);
    if end.calls != [] {
      AllReplied(end.replied, |end.chunks|);
    }
  }

  /** A cancellation before the group's block has run silences the download for good. */
  lemma {:induction false} CancelledIsSilent(g: Gather, steps: seq<Step>, end: Gather)
    requires Inv(g) && g.cancelled && !g.notified && Reaches(g, steps, end)
    ensures end.calls == []
    decreases |steps|
  {
    if steps != [] {
      var n := Next(g, steps[0]);
      if n.notified {
        NotifiedIsFinal(n, steps[1..], end);
      } else {
        CancelledIsSilent(n, steps[1..], end);
      }
    }
  }

  /** However the download stands: one that is cancelled at some step before the block of the group runs is silent. */
  lemma {:induction false} CancelSilences(g: Gather, steps: seq<Step>, i: nat, end: Gather)
    requires Inv(g) && g.calls == [] && !g.notified && Reaches(g, steps, end)
    requires i < |steps| && steps[i].Cancel? && forall j | 0 <= j < i :: !steps[j].Notify?
    ensures end.calls == []
    decreases |steps|
  {
    var n := Next(g, steps[0]);
    if i == 0 {
      CancelledIsSilent(n, steps[1..], end);
    } else {
      CancelSilences(n, steps[1..], i - 1, end);
    }
  }

  // The steps of a run in which a reply arrives.
  function Arrivals(steps: seq<Step>): seq<Step> {
    if steps == [] then [] else (if steps[0].ChunkReply? then [steps[0]] else []) + Arrivals(steps[1..])
  }

  /** The replies are kept in the order in which they arrive, each with its chunk: the caller hears of the sum in this
      order, and so of the error of the first reply to arrive that failed. */
  lemma {:induction false} RepliesInOrder(g: Gather, steps: seq<Step>, end: Gather)
    requires Reaches(g, steps, end) && |g.replied| == |g.responses|
    ensures |end.replied| == |end.responses| == |g.responses| + |Arrivals(steps)|
    ensures g.responses <= end.responses && g.replied <= end.replied
    ensures forall i | 0 <= i < |Arrivals(steps)| ::
              Arrivals(steps)[i] == ChunkReply(end.replied[|g.replied| + i], end.responses[|g.responses| + i])
    decreases |steps|
  {
    if steps != [] {
      var n, rest := Next(g, steps[0]), Arrivals(steps[1..]);
      RepliesInOrder(n, steps[1..], end);
      if steps[0].ChunkReply? {
        assert n.responses[|g.responses|] == steps[0].response && n.replied[|g.replied|] == steps[0].chunk;
        assert Arrivals(steps) == [steps[0]] + rest;
      }
      hide Next, Enabled, Reaches;
    }
  }

  lemma {:induction false} NotifiedIsFinal(g: Gather, steps: seq<Step>, end: Gather)
    requires g.notified && Reaches(g, steps, end)
    ensures end.calls == g.calls
    decreases |steps|
  {
    if steps != [] {
      NotifiedIsFinal(Next(g, steps[0]), steps[1..], end);
    }
  }

  // Distinct indices, as many as there are, are all the indices.
  lemma {:induction false} AllReplied(replied: seq<nat>, n: nat)
    requires |replied| == n
    requires forall i | 0 <= i < |replied| :: replied[i] < n
    requires forall i, j | 0 <= i < j < |replied| :: replied[i] != replied[j]
    ensures forall k | 0 <= k < n :: k in replied
  {
    var all := Below(n);
    var seen := Elements(replied);
    CountDistinct(replied);
    if k: nat :| k < n && k !in replied {
      assert seen <= all - {k};
      CountSubset(seen, all - {k});
    }
  }

  function Below(n: nat): (all: set<nat>)
    ensures |all| == n && forall k: nat :: k in all <==> k < n
  {
    if n == 0 then {} else Below(n - 1) + {n - 1}
  }

  lemma {:induction false} CountDistinct(s: seq<nat>)
    requires forall i, j | 0 <= i < j < |s| :: s[i] != s[j]
    ensures |Elements(s)| == |s|
  {
    if s != [] {
      var init, last := s[..|s| - 1], s[|s| - 1];
      CountDistinct(init);
      ElementsOfLonger(init, last);
      assert s == init + [last];
    }
  }

  lemma ElementsOfLonger(init: seq<nat>, last: nat)
    requires last !in init
    ensures |Elements(init + [last])| == |Elements(init)| + 1
  {
    assert Elements(init + [last]) == Elements(init) + {last};
    assert last !in Elements(init);
  }

  lemma {:induction false} CountSubset(a: set<nat>, b: set<nat>)
    requires a <= b
    ensures |a| <= |b|
  {
    if x :| x in a {
      CountSubset(a - {x}, b - {x});
    }
  }

  /** Every reply of the run that succeeded answers the users of its own chunk. */
  ghost predicate Truthful(dir: Directory, g: Gather) {
    |g.replied| == |g.responses| && forall i | 0 <= i < |g.replied| ::
      g.replied[i] < |g.chunks| && (g.responses[i].Success? ==>
                                    Answers(dir, Elements(g.chunks[g.replied[i]]), g.responses[i].result))
  }

  /** For every user list, every positive chunk size and every order of arrival, an uncancelled download ends like the
      one request for all users: it answers exactly those users, unless some chunk failed, and then it fails. */
  lemma ChunkedRefinesDirect(dir: Directory, users: seq<string>, chunkSize: int, steps: seq<Step>, end: Gather)
    requires chunkSize > 0 && Reaches(Start(users, chunkSize), steps, end)
    requires end.notified && !end.cancelled && Truthful(dir, end)
    ensures |end.calls| == 1
    ensures end.calls[0].Success? <==> forall i | 0 <= i < |end.responses| :: end.responses[i].Success?
    ensures end.calls[0].Success? ==> Answers(dir, Elements(users), end.calls[0].result)
  {
    GatherIsSafe(users, chunkSize, steps, end);
    ReduceFailsExactly(end.responses);
    if end.calls[0].Success? {
      ChunksNeverChange(Start(users, chunkSize), steps, end);
      ArrivalsAnswer(dir, users, chunkSize, end);
    }
  }

  lemma ArrivalsAnswer(dir: Directory, users: seq<string>, chunkSize: int, end: Gather)
    requires chunkSize > 0 && end.chunks == Chunked(users, chunkSize) && Truthful(dir, end)
    requires forall i | 0 <= i < |end.chunks| :: i in end.replied
    requires forall i | 0 <= i < |end.responses| :: end.responses[i].Success?
    ensures Reduce(end.responses).Success? && Answers(dir, Elements(users), Reduce(end.responses).result)
  {
    hide Reduce, AllUsers, Chunked, DevicesOf, CrossSigningOf;
    var requests := seq(|end.replied|, i requires 0 <= i < |end.replied| => end.chunks[end.replied[i]]);
    ReduceAnswers(dir, requests, end.responses);
    forall i | 0 <= i < |end.chunks| ensures end.chunks[i] in requests {
      assert i in end.replied;
      var j :| 0 <= j < |end.replied| && end.replied[j] == i;
      assert requests[j] == end.chunks[i];
    }
    SameRequestsSameUsers(requests, end.chunks);
    ChunksCover(users, chunkSize);
  }

  lemma {:induction false} ChunksNeverChange(g: Gather, steps: seq<Step>, end: Gather)
    requires Reaches(g, steps, end)
    ensures end.chunks == g.chunks
    decreases |steps|
  {
    if steps != [] {
      ChunksNeverChange(Next(g, steps[0]), steps[1..], end);
    }
  }

  /** The positive size is needed: with a negative one nothing is asked for and an empty success is reported,
      which agrees with the one request exactly when the homeserver knows none of the users. */
  lemma NegativeSizeReportsNothing(dir: Directory, users: seq<string>, chunkSize: int)
    requires chunkSize < 0
    ensures Enabled(Start(users, chunkSize), Notify)
    ensures var end := Next(Start(users, chunkSize), Notify);
            end.calls == [Success(EMPTY)]
            && (Answers(dir, Elements(users), EMPTY)
                <==> forall u | u in users :: u !in dir.devices && u !in dir.crossSigning)
  {
    ChunkSizes(users, chunkSize);
    if Answers(dir, Elements(users), EMPTY) {
      forall u | u in users ensures u !in dir.devices && u !in dir.crossSigning {
        assert u in DevicesOf(dir, Elements(users)) <==> u in dir.devices;
        assert u in CrossSigningOf(dir, Elements(users)) <==> u in dir.crossSigning;
      }
    } else {
      assert DevicesOf(dir, Elements(users)) != map[] || CrossSigningOf(dir, Elements(users)) != map[];
    }
  }

  /** `downloadKeysByChunk` past its first guard: the shared variables and the closures that update them. */
  class ChunkedDownload {
    const chunks: seq<seq<string>>
    var group: nat
    var replied: seq<nat>
    var responses: seq<Reply>
    var isCancelled: bool
    var notified: bool
    var calls: seq<Reply>

    function State(): Gather
      reads this
    {
      Gather(chunks, group, replied, responses, isCancelled, notified, calls)
    }

    constructor (users: seq<string>, chunkSize: int)
      requires chunkSize != 0 && chunkSize <= |users|
      ensures State() == Start(users, chunkSize)
    {
      chunks := Chunked(users, chunkSize);
      group, replied, responses, isCancelled, notified, calls := 0, [], [], false, false, [];
      new;
      for i := 0 to |chunks|
        invariant State() == Start(users, chunkSize).(group := i)
      {
        group := group + 1;
      }
    }

    method OnReply(chunk: nat, response: Reply)
      requires Enabled(State(), ChunkReply(chunk, response))
      modifies this
      ensures State() == Next(old(State()), ChunkReply(chunk, response))
    {
      responses := responses + [response];
      replied := replied + [chunk];
      group := group - 1;
    }

    method Cancel()
      modifies this
      ensures State() == Next(old(State()), Step.Cancel)
    {
      isCancelled := true;
    }

    method OnGroupEmpty()
      requires Enabled(State(), Notify)
      modifies this
      ensures State() == Next(old(State()), Notify)
    {
      notified := true;
      if isCancelled {
        return;
      }
      calls := calls + [Reduce(responses)];
    }
  }

  // A stride of 0 traps.
  datatype Opening = Direct | Trap | Gathering(download: ChunkedDownload)

  /** `downloadKeysByChunk` for every size: few users are asked for directly, a size of 0 traps, any other size
      gathers. */
  method DownloadKeysByChunk(users: seq<string>, chunkSize: int) returns (opening: Opening)
    ensures opening.Direct? <==> |users| < chunkSize
    ensures opening.Trap? <==> chunkSize == 0
    ensures opening.Gathering? ==> fresh(opening.download) && opening.download.State() == Start(users, chunkSize)
  {
    if |users| < chunkSize {
      return Direct;
    }
    if chunkSize == 0 {
      return Trap;
    }
    var download := new ChunkedDownload(users, chunkSize);
    return Gathering(download);
  }
}
