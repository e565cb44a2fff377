/** The child-slot table of the OCSP responder's spawn loop (3rd/openssl/apps/ocsp.c). */
module SpawnLoop {
  type Pid = int

  // The occupied slots, counted.
  function Occupied(slots: seq<Pid>): nat {
    if slots == [] then 0 else (if slots[0] != 0 then 1 else 0) + Occupied(slots[1..])
  }

  // The children in the slots are the unreaped ones, each once, and procs counts them.
  ghost predicate Tracks(slots: seq<Pid>, procs: int, live: set<Pid>) {
    procs == Occupied(slots)
    && (forall i | 0 <= i < |slots| :: slots[i] != 0 ==> slots[i] in live)
    && (forall i, j | 0 <= i < j < |slots| :: slots[i] != 0 ==> slots[i] != slots[j])
    && (forall p | p in live :: p > 0 && p in slots)
  }

  lemma {:induction false} OccupiedSet(slots: seq<Pid>, i: nat, p: Pid)
    requires i < |slots|
    ensures Occupied(slots[i := p])
         == Occupied(slots) - (if slots[i] != 0 then 1 else 0) + (if p != 0 then 1 else 0)
    decreases |slots|
  {
    if i == 0 {
      assert slots[0 := p][1..] == slots[1..];
    } else {
      assert slots[i := p][1..] == slots[1..][i - 1 := p];
      OccupiedSet(slots[1..], i - 1, p);
    }
  }

  lemma {:induction false} FullMeansFull(slots: seq<Pid>)
    ensures Occupied(slots) <= |slots|
    ensures Occupied(slots) < |slots| <==> 0 in slots
    decreases |slots|
  {
    if slots != [] {
      FullMeansFull(slots[1..]);
      assert slots == [slots[0]] + slots[1..];
    }
  }

  class ChildTable {
    const kidpids: array<Pid>
    var procs: int
    // The children forked and not yet waited for.
    ghost var live: set<Pid>

    ghost predicate Valid()
      reads this, kidpids
    {
      kidpids.Length > 0 && Tracks(kidpids[..], procs, live)
    }

    constructor (multi: nat)
      requires multi > 0
      ensures Valid() && fresh(kidpids) && kidpids.Length == multi && procs == 0 && live == {}
    {
      kidpids := new Pid[multi];
      procs := 0;
      live := {};
      new;
      for i := 0 to multi
        invariant procs == 0 && live == {} && fresh(kidpids)
        invariant forall k | 0 <= k < i :: kidpids[k] == 0
      {
        kidpids[i] := 0;
      }
      NoneOccupied(kidpids[..]);
    }

    static lemma {:induction false} NoneOccupied(slots: seq<Pid>)
      requires forall i | 0 <= i < |slots| :: slots[i] == 0
      ensures Occupied(slots) == 0
      decreases |slots|
    {
      if slots != [] {
        NoneOccupied(slots[1..]);
      }
    }

    // A child has been waited for. The loop waits only when the table is full, and looks at
    // procs slots only.
    method Reaped(fpid: Pid) returns (internalError: bool)
      requires Valid() && procs >= kidpids.Length && fpid in live
      modifies this, kidpids
      ensures Valid() && live == old(live) - {fpid} && procs == old(procs) - 1 && !internalError
    {
      ghost var slots := kidpids[..];
      FullMeansFull(slots);
      var i := 0;
      while i < procs
        invariant 0 <= i <= procs == old(procs) && kidpids[..] == slots && live == old(live)
        invariant fpid !in slots[..i]
      {
        if kidpids[i] == fpid {
          OccupiedSet(slots, i, 0);
          kidpids[i] := 0;
          procs := procs - 1;
          live := live - {fpid};
          Removed(slots, i, live);
          assert kidpids[..] == slots[i := 0];
          break;
        }
        assert slots[..i + 1] == slots[..i] + [slots[i]];
        i := i + 1;
      }
      assert slots[..|slots|] == slots;
      internalError := i >= kidpids.Length;
    }

    static lemma Removed(slots: seq<Pid>, i: nat, live: set<Pid>)
      requires i < |slots| && slots[i] != 0 && Tracks(slots, Occupied(slots), live + {slots[i]}) && slots[i] !in live
      ensures Tracks(slots[i := 0], Occupied(slots[i := 0]), live)
    {
      var after := slots[i := 0];
      forall p | p in live
        ensures p > 0 && p in after
      {
        assert p in live + {slots[i]};
        var k :| 0 <= k < |slots| && slots[k] == p;
        assert after[k] == p;
      }
    }

    // A child has been forked: it goes into the first free slot.
    method Forked(fpid: Pid) returns (internalError: bool)
      requires Valid() && procs < kidpids.Length && fpid > 0 && fpid !in live
      modifies this, kidpids
      ensures Valid() && live == old(live) + {fpid} && procs == old(procs) + 1 && !internalError
    {
      ghost var slots := kidpids[..];
      FullMeansFull(slots);
      var i := 0;
      while i < kidpids.Length
        invariant 0 <= i <= kidpids.Length && kidpids[..] == slots && procs == old(procs) && live == old(live)
        invariant 0 !in slots[..i]
      {
        if kidpids[i] == 0 {
          OccupiedSet(slots, i, fpid);
          kidpids[i] := fpid;
          procs := procs + 1;
          live := live + {fpid};
          Added(slots, i, fpid, old(live));
          assert kidpids[..] == slots[i := fpid];
          break;
        }
        assert slots[..i + 1] == slots[..i] + [slots[i]];
        i := i + 1;
      }
      assert slots[..|slots|] == slots;
      internalError := i >= kidpids.Length;
    }

    static lemma Added(slots: seq<Pid>, i: nat, p: Pid, live: set<Pid>)
      requires i < |slots| && slots[i] == 0 && Tracks(slots, Occupied(slots), live) && p > 0 && p !in live
      ensures Tracks(slots[i := p], Occupied(slots[i := p]), live + {p})
    {
      var after := slots[i := p];
      forall q | q in live + {p}
        ensures q > 0 && q in after
      {
        if q == p {
          assert after[i] == p;
        } else {
          var k :| 0 <= k < |slots| && slots[k] == q;
          assert after[k] == q;
        }
      }
    }
  }

  // What the system answers to the one call the loop makes next: waitpid when the table is
  // full, fork otherwise.
  datatype Answer = Waited(pid: Pid) | Interrupted | Child(pid: Pid) | NoMemory

  // The system only reaps unreaped children, and never hands out the pid of one.
  ghost predicate Plausible(multi: nat, live: set<Pid>, answers: seq<Answer>)
    decreases |answers|
  {
    answers != [] ==>
      match answers[0]
      case Waited(pid) => |live| >= multi && pid in live && Plausible(multi, live - {pid}, answers[1..])
      case Interrupted => |live| >= multi && Plausible(multi, live, answers[1..])
      case Child(pid) => |live| < multi && pid > 0 && pid !in live && Plausible(multi, live + {pid}, answers[1..])
      case NoMemory => |live| < multi && Plausible(multi, live, answers[1..])
  }

  // The children forked and not waited for after the answers.
  ghost function LiveAfter(live: set<Pid>, answers: seq<Answer>): set<Pid>
    decreases |answers|
  {
    if answers == [] then live else
      match answers[0]
      case Waited(pid) => LiveAfter(live - {pid}, answers[1..])
      case Child(pid) => LiveAfter(live + {pid}, answers[1..])
      case _ => LiveAfter(live, answers[1..])
  }

  // procs, the number of live children and the number of occupied slots are one.
  lemma {:induction false} LiveCount(slots: seq<Pid>, procs: int, live: set<Pid>)
    requires Tracks(slots, procs, live)
    ensures |live| == procs
    decreases |slots|
  {
    if slots == [] {
      assert forall p | p in live :: p in slots;
      assert live == {};
    } else {
      var rest := slots[1..];
      var live' := live - {slots[0]};
      assert forall i | 0 <= i < |rest| :: rest[i] == slots[i + 1];
      forall p | p in live'
        ensures p > 0 && p in rest
      {
        assert slots == [slots[0]] + rest;
        assert p in slots;
      }
      if slots[0] == 0 {
        assert live' == live;
      } else {
        assert live == live' + {slots[0]};
      }
      LiveCount(rest, Occupied(rest), live');
    }
  }

  /**
   In every run the system can produce, procs ends as the number of children forked and
   not waited for and is within multi, and neither of the two internal errors is reached.
   */
  method Supervise(multi: nat, answers: seq<Answer>) returns (internalError: bool, procs: int)
    requires multi > 0 && Plausible(multi, {}, answers)
    ensures !internalError && procs == |LiveAfter({}, answers)| <= multi
  {
    var table := new ChildTable(multi);
    internalError := false;
    assert answers[0..] == answers;
    for i := 0 to |answers|
      invariant fresh(table) && fresh(table.kidpids) && table.kidpids.Length == multi && table.Valid()
      invariant Plausible(multi, table.live, answers[i..]) && !internalError
      invariant LiveAfter(table.live, answers[i..]) == LiveAfter({}, answers)
    {
      LiveCount(table.kidpids[..], table.procs, table.live);
      assert answers[i..][0] == answers[i] && answers[i..][1..] == answers[i + 1..];
      if table.procs >= multi {
        if answers[i].Waited? {
          internalError := table.Reaped(answers[i].pid);
        }
      } else {
        if answers[i].Child? {
          internalError := table.Forked(answers[i].pid);
        }
      }
    }
    FullMeansFull(table.kidpids[..]);
    LiveCount(table.kidpids[..], table.procs, table.live);
    assert answers[|answers|..] == [];
    procs := table.procs;
  }
}
