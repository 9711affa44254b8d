/**
 Racing connections to the validated addresses of one host, then streaming the winner.

 Attempt `i` is the task for address `i`. The schedule lists the batches of attempts that
 each wait returned as done; if the loop wants another batch and there is none, the connect
 deadline has expired. `late` are the attempts that finish although no processed batch holds
 them: after the deadline fired, or while the remaining tasks were being cancelled.
*/
module ConnectionRace {
  import opened Options

  datatype Attempt =
    | Opened(status: int)
    | TransportFailure
    | UnexpectedError

  predicate IsAccepted(a: Attempt) {
    a.Opened? && a.status < 400
  }

  ghost predicate ValidSchedule(results: seq<Attempt>, schedule: seq<set<nat>>, late: set<nat>) {
    && (forall b, i :: 0 <= b < |schedule| && i in schedule[b] ==> i < |results|)
    && (forall b, c, i :: 0 <= b < c < |schedule| && i in schedule[b] ==> i !in schedule[c])
    && (forall i :: i in late ==> i < |results|)
  }

  // ---------------------------------------------------------------- the outcome, declaratively

  /** A batch in which every attempt failed at the transport settles nothing. */
  ghost predicate Settles(results: seq<Attempt>, batch: set<nat>) {
    exists i :: i in batch && i < |results| && !results[i].TransportFailure?
  }

  ghost predicate HasAccepted(results: seq<Attempt>, batch: set<nat>) {
    exists i :: i in batch && i < |results| && IsAccepted(results[i])
  }

  ghost predicate HasUnexpected(results: seq<Attempt>, batch: set<nat>) {
    exists i :: i in batch && i < |results| && results[i].UnexpectedError?
  }

  /** `b` is the first batch that settles the race, or the length of the schedule. */
  ghost predicate SettledAt(results: seq<Attempt>, schedule: seq<set<nat>>, b: nat) {
    && b <= |schedule|
    && (forall c :: 0 <= c < b ==> !Settles(results, schedule[c]))
    && (b < |schedule| ==> Settles(results, schedule[b]))
  }

  ghost predicate LowestAccepted(results: seq<Attempt>, batch: set<nat>, w: nat) {
    && w in batch && w < |results| && IsAccepted(results[w])
    && forall i :: i in batch && i < |results| && IsAccepted(results[i]) ==> w <= i
  }

  datatype Finish = Finish(winner: Option<nat>, raised: Option<nat>)

  /** The lowest acceptable address of the settling batch wins; an unexpected error surfaces
      only when there is no winner. */
  ghost predicate Outcome(results: seq<Attempt>, schedule: seq<set<nat>>, b: nat, f: Finish) {
    if b < |schedule| && HasAccepted(results, schedule[b]) then
      f.winner.Some? && LowestAccepted(results, schedule[b], f.winner.value) && f.raised == None
    else
      && f.winner == None
      && (f.raised.Some? <==> b < |schedule| && HasUnexpected(results, schedule[b]))
      && (f.raised.Some? ==> f.raised.value in schedule[b] && f.raised.value < |results|
                             && results[f.raised.value].UnexpectedError?)
  }

  /** The streams that came to be open: of processed attempts and of late ones. */
  ghost predicate WasOpened(results: seq<Attempt>, schedule: seq<set<nat>>, b: nat, late: set<nat>, i: nat) {
    && i < |results| && results[i].Opened?
    && (i in late || exists c :: 0 <= c < |schedule| && c <= b && i in schedule[c])
  }

  // ---------------------------------------------------------------- the race

  /** What one pass over a done batch collects. */
  method ProcessBatch(results: seq<Attempt>, batch: set<nat>, seen: Option<nat>)
    returns (accepted: seq<nat>, sawReject: bool, unexpected: Option<nat>)
    requires forall i :: i in batch ==> i < |results|
    ensures forall i :: i in accepted <==> i in batch && IsAccepted(results[i])
    ensures sawReject <==> exists i :: i in batch && results[i].Opened? && !IsAccepted(results[i])
    ensures seen.Some? ==> unexpected == seen
    ensures seen.None? ==> (unexpected.Some? <==> HasUnexpected(results, batch))
    ensures seen.None? && unexpected.Some? ==> unexpected.value in batch && results[unexpected.value].UnexpectedError?
  {
    accepted, sawReject, unexpected := [], false, seen;
    var left := batch;
    while left != {}
      invariant left <= batch
      invariant forall i :: i in accepted <==> i in batch - left && IsAccepted(results[i])
      invariant sawReject <==> exists i :: i in batch - left && results[i].Opened? && !IsAccepted(results[i])
      invariant seen.Some? ==> unexpected == seen
      invariant seen.None? ==> (unexpected.Some? <==> exists i :: i in batch - left && results[i].UnexpectedError?)
      invariant seen.None? && unexpected.Some? ==>
          unexpected.value in batch && results[unexpected.value].UnexpectedError?
    {
      var task :| task in left;  // the order of a set of tasks is not defined
      left := left - {task};
      assert task in batch - left;
      match results[task] {
        case Opened(status) =>
          if status < 400 { accepted := accepted + [task]; } else { sawReject := true; }
        case TransportFailure =>
        case UnexpectedError =>
          if unexpected.None? { unexpected := Some(task); }
      }
    }
  }

  /** The first element after sorting by address order. */
  method Lowest(accepted: seq<nat>) returns (w: nat)
    requires accepted != []
    ensures w in accepted && forall i :: i in accepted ==> w <= i
  {
    w := accepted[0];
    for n := 1 to |accepted|
      invariant w in accepted && forall m :: 0 <= m < n ==> w <= accepted[m]
    {
      if accepted[n] < w { w := accepted[n]; }
    }
  }

  /** Run the race. `closes[i]` counts how often the stream of attempt `i` has been closed. */
  method RacePinnedConnection(results: seq<Attempt>, schedule: seq<set<nat>>, late: set<nat>, closes: array<nat>)
    returns (f: Finish, ghost b: nat)
    requires ValidSchedule(results, schedule, late) && closes.Length == |results|
    modifies closes
    ensures SettledAt(results, schedule, b) && Outcome(results, schedule, b, f)
    ensures forall i :: 0 <= i < |results| ==>
              closes[i] == old(closes[i]) +
                           if WasOpened(results, schedule, b, late, i) && f.winner != Some(i) then 1 else 0
  {
    var winner: Option<nat>, unexpected: Option<nat>, giveUp := None, None, false;
    var next := 0;
    var finished: set<nat> := {};
    b := 0;
    while next < |schedule| && winner.None? && !giveUp && unexpected.None?
      invariant next <= |schedule|
      invariant forall j :: 0 <= j < |results| ==> closes[j] == old(closes[j])
      invariant finished == set i, c | 0 <= c < next && i in schedule[c] :: i
      invariant if winner.None? && !giveUp && unexpected.None? then b == next else b == next - 1
      invariant forall c :: 0 <= c < b ==> !Settles(results, schedule[c])
      invariant b < next ==> Settles(results, schedule[b])
      invariant b == next ==> winner == None && unexpected == None
      invariant b < next ==> (winner.Some? <==> HasAccepted(results, schedule[b]))
      invariant b < next && winner.Some? ==> LowestAccepted(results, schedule[b], winner.value)
      invariant b < next ==> (unexpected.Some? <==> HasUnexpected(results, schedule[b]))
      invariant b < next && unexpected.Some? ==>
                  unexpected.value in schedule[b] && results[unexpected.value].UnexpectedError?
    {
      var done := schedule[next];
      var accepted, sawReject;
      accepted, sawReject, unexpected := ProcessBatch(results, done, unexpected);
      if accepted != [] {
        var w := Lowest(accepted);
        winner := Some(w);
        assert IsAccepted(results[w]);
      } else {
        assert !HasAccepted(results, done) by {
          forall i | i in done ensures !IsAccepted(results[i]) { assert i !in accepted; }
        }
        if sawReject { giveUp := true; }
      }
      finished := finished + done;
      next := next + 1;
      if winner.None? && !giveUp && unexpected.None? {
        b := next;
      }
    }
    // Cancel what is not done, gather everything, close every stream but the winner's.
    var gathered := finished + late;
    for i := 0 to |results|
      invariant forall j :: 0 <= j < i ==>
                  closes[j] == old(closes[j]) +
                               if j in gathered && results[j].Opened? && winner != Some(j) then 1 else 0
      invariant forall j :: i <= j < |results| ==> closes[j] == old(closes[j])
    {
      if i in gathered && results[i].Opened? && winner != Some(i) {
        closes[i] := closes[i] + 1;
      }
    }
    f := Finish(winner, if winner.None? then unexpected else None);
  }

  // ---------------------------------------------------------------- the fetch around it

  datatype ReadEvent =
    | Chunk(bytes: seq<int>)
    | HttpFailure
    | OtherFailure

  datatype Fetched =
    | Body(bytes: seq<int>)
    | Nothing
    | Raises

  function Joined(events: seq<ReadEvent>): seq<int> {
    if events == [] then []
    else (if events[0].Chunk? then events[0].bytes else []) + Joined(events[1..])
  }

  lemma {:induction false} JoinedAppends(events: seq<ReadEvent>, e: ReadEvent)
    requires e.Chunk?
    ensures Joined(events + [e]) == Joined(events) + e.bytes
    decreases |events|
  {
    var all := events + [e];
    if events == [] {
      assert all == [e] && all[1..] == [];
      assert Joined(all) == e.bytes + [];
    } else {
      var head := if events[0].Chunk? then events[0].bytes else [];
      assert all[0] == events[0] && all[1..] == events[1..] + [e];
      JoinedAppends(events[1..], e);
      assert Joined(all) == head + (Joined(events[1..]) + e.bytes);
    }
  }

  lemma {:induction false} JoinedGrows(events: seq<ReadEvent>, n: nat)
    requires n <= |events|
    ensures |Joined(events[..n])| <= |Joined(events)|
    decreases n
  {
    if n > 0 {
      assert events[..n][1..] == events[1..][..n - 1];
      JoinedGrows(events[1..], n - 1);
    }
  }

  ghost predicate AllChunks(events: seq<ReadEvent>) {
    forall i :: 0 <= i < |events| ==> events[i].Chunk?
  }

  /** An error that is no HTTP error breaks the read off: it comes while what was received before
      it is within the cap. */
  ghost predicate Breaks(events: seq<ReadEvent>, maxBytes: int) {
    exists n ::
      && 0 <= n < |events| && events[n].OtherFailure? && AllChunks(events[..n])
      && (n > 0 ==> |Joined(events[..n])| <= maxBytes)
  }

  lemma ChunksBefore(events: seq<ReadEvent>, n: nat)
    requires n <= |events| && AllChunks(events[..n])
    ensures forall i :: 0 <= i < n ==> events[i].Chunk?
  {
    forall i | 0 <= i < n ensures events[i].Chunk? {
      assert events[..n][i].Chunk?;
    }
  }

  /** The first event that is no chunk decides whether the read breaks off. */
  lemma BreaksAtTheFirstFailure(events: seq<ReadEvent>, n: nat, maxBytes: int)
    requires n < |events| && AllChunks(events[..n]) && !events[n].Chunk?
    ensures Breaks(events, maxBytes) <==> events[n].OtherFailure? && (n > 0 ==> |Joined(events[..n])| <= maxBytes)
  {
    ChunksBefore(events, n);
    if Breaks(events, maxBytes) {
      var k :| && 0 <= k < |events| && events[k].OtherFailure? && AllChunks(events[..k])
               && (k > 0 ==> |Joined(events[..k])| <= maxBytes);
      ChunksBefore(events, k);
      assert k == n;
    }
  }

  lemma NoBreakPastTheCap(events: seq<ReadEvent>, n: nat, maxBytes: int)
    requires 0 < n <= |events| && AllChunks(events[..n]) && |Joined(events[..n])| > maxBytes
    ensures !Breaks(events, maxBytes)
  {
    ChunksBefore(events, n);
    if Breaks(events, maxBytes) {
      var k :| && 0 <= k < |events| && events[k].OtherFailure? && AllChunks(events[..k])
               && (k > 0 ==> |Joined(events[..k])| <= maxBytes);
      assert k >= n;
      assert events[..k][..n] == events[..n];
      JoinedGrows(events[..k], n);
    }
  }

  /** Read the winner's body, never keeping more than the cap. */
  method ReadBody(declared: Option<int>, events: seq<ReadEvent>, maxBytes: int) returns (r: Fetched)
    ensures r.Body? <==> (declared.Some? ==> declared.value <= maxBytes) && AllChunks(events)
                         && (events == [] || |Joined(events)| <= maxBytes)
    ensures r.Body? ==> r.bytes == Joined(events) && (events != [] ==> |r.bytes| <= maxBytes)
    ensures r.Raises? <==> (declared.Some? ==> declared.value <= maxBytes) && Breaks(events, maxBytes)
  {
    if declared.Some? && declared.value > maxBytes {
      return Nothing;
    }
    var chunks: seq<int> := [];
    var received := 0;
    for n := 0 to |events|
      invariant chunks == Joined(events[..n]) && received == |chunks|
      invariant n > 0 ==> received <= maxBytes
      invariant AllChunks(events[..n])
    {
      match events[n] {
        case HttpFailure =>
          BreaksAtTheFirstFailure(events, n, maxBytes);
          return Nothing;
        case OtherFailure =>
          BreaksAtTheFirstFailure(events, n, maxBytes);
          return Raises;
        case Chunk(bytes) =>
          received := received + |bytes|;
          assert events[..n + 1] == events[..n] + [events[n]];
          JoinedAppends(events[..n], events[n]);
          if received > maxBytes {
            JoinedGrows(events, n + 1);
            NoBreakPastTheCap(events, n + 1, maxBytes);
            return Nothing;
          }
          chunks := chunks + bytes;
      }
    }
    assert events[..|events|] == events;
    r := Body(chunks);
  }

  /** What reading attempt `i` would meet: its declared length and its body events. */
  datatype Reply = Reply(declared: Option<int>, events: seq<ReadEvent>)

  /** Race, then stream only the winner. However the race and the read end, every stream that
      was ever opened has been closed exactly once. */
  method RacePinnedFetch(results: seq<Attempt>, schedule: seq<set<nat>>, late: set<nat>, replies: seq<Reply>,
                         maxBytes: int, closes: array<nat>)
    returns (r: Fetched, ghost b: nat, ghost f: Finish)
    requires ValidSchedule(results, schedule, late) && closes.Length == |results| == |replies|
    modifies closes
    ensures SettledAt(results, schedule, b) && Outcome(results, schedule, b, f)
    ensures forall i :: 0 <= i < |results| ==>
              closes[i] == old(closes[i]) + if WasOpened(results, schedule, b, late, i) then 1 else 0
    ensures f.raised.Some? ==> r == Raises
    ensures f.winner.None? && f.raised.None? ==> r == Nothing
    ensures f.winner.Some? ==>
              var reply := replies[f.winner.value];
              && (r.Body? <==> (reply.declared.Some? ==> reply.declared.value <= maxBytes) && AllChunks(reply.events)
                               && (reply.events == [] || |Joined(reply.events)| <= maxBytes))
              && (r.Body? ==> r.bytes == Joined(reply.events))
              && (r.Raises? <==> (reply.declared.Some? ==> reply.declared.value <= maxBytes)
                                 && Breaks(reply.events, maxBytes))
    ensures r.Body? ==> f.winner.Some? && (0 <= maxBytes ==> |r.bytes| <= maxBytes)
  {
    var finish;
    finish, b := RacePinnedConnection(results, schedule, late, closes);
    f := finish;
    if finish.raised.Some? {
      return Raises, b, f;
    }
    if finish.winner.None? {
      return Nothing, b, f;
    }
    var w := finish.winner.value;
    r := ReadBody(replies[w].declared, replies[w].events, maxBytes);
    closes[w] := closes[w] + 1;
  }

  // ---------------------------------------------------------------- the schedule decides

  /** The batch that settles a race is determined, and so is the winner: the order in which a
      batch is walked cannot matter. */
  lemma WinnerIsDetermined(results: seq<Attempt>, schedule: seq<set<nat>>, b: nat, f: Finish, c: nat, g: Finish)
    requires SettledAt(results, schedule, b) && Outcome(results, schedule, b, f)
    requires SettledAt(results, schedule, c) && Outcome(results, schedule, c, g)
    ensures b == c && f.winner == g.winner && f.raised.Some? == g.raised.Some?
  {
    if b < c { assert false; }
    if c < b { assert false; }
  }

  /** Once an address answers below 400 in a batch, only an earlier batch holding an HTTP reply
      or an unexpected error can keep the race from having a winner. */
  lemma AcceptedBatchWinsUnlessSettledBefore(results: seq<Attempt>, schedule: seq<set<nat>>, b: nat, f: Finish, c: nat)
    requires SettledAt(results, schedule, b) && Outcome(results, schedule, b, f)
    requires c < |schedule| && HasAccepted(results, schedule[c])
    ensures b <= c
    ensures f.winner.Some? <==> HasAccepted(results, schedule[b])
    ensures b == c ==> LowestAccepted(results, schedule[c], f.winner.value)
  {
    assert Settles(results, schedule[c]);
  }
}
