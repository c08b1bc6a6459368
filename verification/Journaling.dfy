// The journaling stage: it gives every new command its id and timestamp in the
// ring and appends it to the archive. During a replay it lets commands pass.
module Journaling {
  import opened Orders
  import opened BookRuns
  import Flakes = Snowflakes

  datatype Verdict = Journaled | LetThrough | Panicked | StillWaiting

  class JournalingProcessor {
    const snowflake: Flakes.Snowflake
    var replaying: bool
    var archive: seq<Command>

    constructor (snowflake: Flakes.Snowflake, replaying: bool)
      ensures this.snowflake == snowflake && this.replaying == replaying && archive == []
    {
      this.snowflake, this.replaying := snowflake, replaying;
      archive := [];
    }

    // Rewrites slot i of the ring. Where no id can be generated the source panics,
    // and the command is not journaled.
    method JournalCommand(ring: array<Command>, i: nat, now: nat, fuel: nat) returns (r: Verdict)
      requires i < ring.Length
      modifies ring, snowflake, this`archive
      ensures replaying ==>
                r == LetThrough && ring[..] == old(ring[..]) && archive == old(archive)
                  && snowflake.View() == old(snowflake.View())
      ensures !replaying ==>
                var c := old(ring[i]);
                var a := Flakes.NextId(old(snowflake.View()), snowflake.epoch, snowflake.clock, old(snowflake.pos),
                                       Flakes.Request(c.routeGatewayId, snowflake.batch, fuel));
                && r == (if c.kind == CancelOrder || a.result.Id? then Journaled
                         else if a.result.Failed? then Panicked
                         else StillWaiting)
                && snowflake.View() == (if c.kind == CancelOrder then old(snowflake.View()) else a.generator)
                && (if r == Journaled then
                      var d := ring[i];
                      && ring[..] == old(ring[..])[i := d] && archive == old(archive) + [d]
                      && d == c.(orderId := d.orderId, timestamp := now)
                      && (if c.kind == CancelOrder then d.orderId == c.orderId else a.result == Flakes.Id(d.orderId))
                      && d == Stamped(c, if a.result.Id? then a.result.id else 0, now)
                    else
                      ring[..] == old(ring[..]) && archive == old(archive))
    {
      if replaying {
        return LetThrough;
      }
      var c := ring[i];
      if c.kind != CancelOrder {
        var id := snowflake.Generate(c.routeGatewayId, fuel);
        if !id.Id? {
          return if id.Failed? then Panicked else StillWaiting;
        }
        ring[i] := c.(orderId := id.id);
      }
      ring[i] := ring[i].(timestamp := now);
      archive := archive + [ring[i]];
      r := Journaled;
    }
  }

  // --- What the books rely on ---------------------------------------------------------

  // Ids given by the journaling stage, in order.
  function GivenIds(cmds: seq<Command>): seq<nat> {
    if cmds == [] then []
    else (if cmds[0].kind == CancelOrder then [] else [cmds[0].orderId]) + GivenIds(cmds[1..])
  }

  ghost predicate FromGateway(cmds: seq<Command>) {
    forall c :: c in cmds && c.kind == PlaceOrder ==> 0 < c.size && c.price <= U64_MAX && c.events == []
  }

  lemma {:induction false} IncreasingAdmissible(s: Tape, cmds: seq<Command>)
    requires FromGateway(cmds) && Flakes.Increasing(GivenIds(cmds))
    requires forall id :: id in GivenIds(cmds) ==> id >= s.bound
    ensures AdmissibleRun(s, cmds)
    decreases |cmds|
  {
    if cmds != [] {
      var c, ids, rest, next := cmds[0], GivenIds(cmds), GivenIds(cmds[1..]), Advance(s, cmds[0]);
      AdvanceBound(s, c);
      assert c in cmds && FromGateway(cmds[1..]);
      if c.kind == CancelOrder {
        assert ids == rest;
      } else {
        FirstIsLeast(c.orderId, ids, rest);
      }
      IncreasingAdmissible(next, cmds[1..]);
    }
  }

  lemma AdvanceBound(s: Tape, c: Command)
    ensures Advance(s, c).bound == if c.kind == PlaceOrder && c.status != Rejected then c.orderId + 1 else s.bound
  {
  }

  lemma FirstIsLeast(id: nat, ids: seq<nat>, rest: seq<nat>)
    requires Flakes.Increasing(ids) && ids == [id] + rest
    ensures Flakes.Increasing(rest) && id in ids
    ensures forall x :: x in rest ==> x > id && x in ids
  {
    forall x | x in rest
      ensures x > id && x in ids
    {
      var i :| 0 <= i < |rest| && rest[i] == x;
      assert ids[0] < ids[i + 1] == x;
    }
    forall i, j | 0 <= i < j < |rest|
      ensures rest[i] < rest[j]
    {
      assert ids[i + 1] < ids[j + 1];
    }
  }

  // Commands stamped by one generator, on any clock that does not run back, keep
  // every book they reach within its invariant; in particular each price level's
  // queue is strictly increasing in id.
  lemma JournaledRun(epoch: nat, clock: nat -> nat, rs: seq<Flakes.Request>, cmds: seq<Command>, side: Side)
    requires Flakes.NonDecreasing(clock)
    requires FromGateway(cmds) && GivenIds(cmds) == Flakes.Issued(Flakes.Generator(0, 0), epoch, clock, 0, rs)
    ensures AdmissibleRun(BLANK_TAPE, cmds) && Invariant(Run(BLANK_TAPE, cmds))
    ensures var orders := Run(BLANK_TAPE, cmds).book.Resting(side);
            forall i, j :: 0 <= i < j < |orders| && orders[i].price == orders[j].price ==> orders[i].id < orders[j].id
  {
    Flakes.GeneratedIdsIncrease(epoch, clock, rs);
    IncreasingAdmissible(BLANK_TAPE, cmds);
    ReachableInvariant(cmds);
  }
}
