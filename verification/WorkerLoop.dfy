/** The event loop of a worker: relay objects that share one pool, driven by one event at a time.
    What it does is a run of `RelayModel`, so the theorems about runs are about these objects. */
module WorkerLoop {
  import opened RelayModel
  import opened RelaySafety
  import opened RelaySession
  import opened RelayTheorems

  ghost function Values(relays: seq<RelaySession>): (rs: seq<Relay>)
    reads relays
    ensures |rs| == |relays| && forall k :: 0 <= k < |rs| ==> rs[k] == relays[k].Value()
  {
    if relays == [] then [] else Values(relays[..|relays| - 1]) + [relays[|relays| - 1].Value()]
  }

  /** `w` is where the run ends. */
  ghost predicate Leads(w0: World, run: seq<Event>, w: World) {
    Initial(w0) && Legal(w0, run) && Exec(w0, run) == w
  }

  lemma LeadsOn(w0: World, run: seq<Event>, w: World, e: Event)
    requires Leads(w0, run, w) && Enabled(w, e)
    ensures Leads(w0, run + [e], Next(w, e))
  {
    Extend(w0, run, e);
  }

  class WorkerLoop {
    const worker: Worker
    var relays: seq<RelaySession>
    // The run so far.
    ghost var start: World
    ghost var run: seq<Event>

    ghost function Value(): World
      reads `relays, relays, worker, worker.pool
    {
      World(Values(relays), worker.Value())
    }

    /** No relay is listed twice, and all of them belong to this worker. */
    ghost predicate Owned()
      reads `relays, relays
    {
      && (forall j, k :: 0 <= j < k < |relays| ==> relays[j] != relays[k])
      && forall k :: 0 <= k < |relays| ==> relays[k].worker == worker
    }

    ghost predicate Valid()
      reads this, relays, worker, worker.pool
    {
      Owned() && Leads(start, run, Value())
    }

    /** A worker with its backends added and no client yet. */
    constructor (worker: Worker)
      requires Initial(World([], worker.Value()))
      ensures Valid() && this.worker == worker && relays == [] && run == []
    {
      this.worker, relays := worker, [];
      start, run := World([], worker.Value()), [];
    }

    method OnAccept(h1: bool)
      requires Owned()
      modifies `relays
      ensures Owned() && Values(relays) == old(Values(relays)) + [Started(h1)]
      ensures forall r :: r in relays ==> r in old(relays) || fresh(r)
    {
      var r := new RelaySession(h1, worker);
      relays := relays + [r];
      assert relays[..|relays| - 1] == old(relays);
    }

    /** What relay `k` does leaves the others as they were. */
    method Deliver(k: nat, e: Event)
      requires Owned() && k < |relays| && !e.Accept?
      requires e.Complete? ==>
          e.index < Length(relays[k].pending) && Fits(Nth(relays[k].pending, e.index), e.outcome)
      modifies relays[k], worker, worker.pool
      ensures Owned() && relays[k].Snapshot() == Act(old(relays[k].Value()), old(worker.Value()), e)
      ensures Values(relays) == old(Values(relays))[k := relays[k].Value()]
    {
      relays[k].OnEvent(e);
    }

    /** One event: the objects do what `Next` says. */
    method Step(e: Event, ghost w: World, ghost w1: World)
      requires Owned() && Value() == w && Enabled(w, e) && Next(w, e) == w1
      modifies `relays, relays, worker, worker.pool
      ensures Owned() && Value() == w1
      ensures forall r :: r in relays ==> r in old(relays) || fresh(r)
    {
      if e.Accept? {
        OnAccept(e.h1);
      } else {
        Deliver(e.relay, e);
      }
    }

    /** One event is one more step of the run. */
    method Advance(e: Event, ghost w: World, ghost w1: World)
      requires Owned() && Value() == w && Enabled(w, e) && Next(w, e) == w1 && Leads(start, run + [e], w1)
      modifies `run, `relays, relays, worker, worker.pool
      ensures Valid() && run == old(run) + [e] && Value() == w1
    {
      run := run + [e];
      Step(e, w, w1);
    }

    /** Takes one event, does what `Next` says and keeps the invariant of every run. */
    method Handle(e: Event)
      requires Valid() && Enabled(Value(), e)
      modifies `run, `relays, relays, worker, worker.pool
      ensures Valid() && run == old(run) + [e] && Value() == Next(old(Value()), e)
      ensures Value().sh.crashed || Inv(Value())
    {
      LeadsOn(start, run, Value(), e);
      Advance(e, Value(), Next(Value(), e));
      Safe();
    }

    lemma Safe()
      requires Valid()
      ensures Value().sh.crashed || Inv(Value())
    {
      RunInv(start, run);
    }

    /** Every theorem about the worlds a run reaches is about these objects. */
    lemma Reached()
      requires Valid() && !worker.crashed
      ensures Reachable(Value())
    {
      assert Initial(start) && Legal(start, run) && Exec(start, run) == Value();
    }
  }
}
