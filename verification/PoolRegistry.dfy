/** The maps in which a secondary keeps stored pools and listeners, for all jobs, and
    the stretches of code that update them. Each stretch is proved to be the event of
    its job and to leave every other job alone, so each job runs the hand-over protocol
    whatever the others do. */
module PoolRegistry {
  import opened Results
  import opened HandOver

  lemma RunSnoc(s: Job, events: seq<Event>, e: Event)
    ensures Run(s, events + [e]) == Next(Run(s, events), e)
  {
    RunConcat(s, events, [e]);
    assert Run(Run(s, events), [e]) == Run(Next(Run(s, events), e), []);
  }

  // A map read with a default.
  function Lookup<T>(m: map<string, T>, job: string, default: T): T {
    if job in m then m[job] else default
  }

  function LookupOption<T>(m: map<string, T>, job: string): Option<T> {
    if job in m then Some(m[job]) else None
  }

  class Registry {
    var pools: map<string, nat>
    var listeners: map<string, nat>
    // the handlers with what they hold, and the channels between them
    var handlers: map<string, seq<Handler>>
    var channels: map<string, seq<Channel>>
    var nextPool: map<string, nat>
    ghost var events: map<string, seq<Event>>

    ghost function View(job: string): Job
      reads this`pools, this`listeners, this`handlers, this`channels, this`nextPool
    {
      Job(LookupOption(pools, job), LookupOption(listeners, job), Lookup(channels, job, []),
          Lookup(handlers, job, []), Lookup(nextPool, job, 0))
    }

    ghost function History(job: string): seq<Event>
      reads this`events
    {
      Lookup(events, job, [])
    }

    /** Every job is where its own events lead. */
    ghost predicate Consistent()
      reads this
    {
      forall job :: View(job) == Run(Start, History(job))
    }

    constructor ()
      ensures Consistent() && forall job :: History(job) == []
    {
      pools, listeners, handlers, channels, nextPool, events := map[], map[], map[], map[], map[], map[];
    }

    // Append an event to the history of a job.
    ghost method Note(job: string, e: Event, before: Job)
      requires before == Run(Start, History(job)) && View(job) == Next(before, e)
      requires forall other :: other != job ==> View(other) == Run(Start, History(other))
      modifies this`events
      ensures Consistent() && History(job) == old(History(job)) + [e]
      ensures forall other :: other != job ==> History(other) == old(History(other))
    {
      hide Run, Next;
      RunSnoc(Start, History(job), e);
      events := events[job := History(job) + [e]];
      forall other | other != job ensures History(other) == old(History(other)) {
      }
    }

    method SetHandler(job: string, i: nat, h: Handler)
      modifies this`handlers
      ensures View(job) == old(View(job)).(handlers := Set(old(View(job)), i, h))
      ensures forall other :: other != job ==> View(other) == old(View(other))
    {
      var all := Lookup(handlers, job, []);
      if i < |all| {
        handlers := handlers[job := all[i := h]];
      }
    }

    // A connection reaches the pool set-up: it takes the listener, or makes a pool.
    method Arrive(job: string)
      requires Consistent()
      modifies this
      ensures Consistent() && View(job) == Next(old(View(job)), Event.Arrive)
      ensures History(job) == old(History(job)) + [Event.Arrive]
      ensures forall other :: other != job ==> View(other) == old(View(other)) && History(other) == old(History(other))
    {
      ghost var before := View(job);
      var all := Lookup(handlers, job, []);
      if job in listeners {
        var rx := listeners[job];
        listeners := listeners - {job};
        handlers := handlers[job := all + [Waiting(rx)]];
      } else {
        var pool := Lookup(nextPool, job, 0);
        nextPool := nextPool[job := pool + 1];
        handlers := handlers[job := all + [Equipped(pool)]];
      }
      forall other | other != job ensures View(other) == old(View(other)) {
      }
      Note(job, Event.Arrive, before);
    }

    // Its wait ends: with a notification, if there is one, or without.
    method EndWait(job: string, i: nat) returns (notified: bool, ghost e: Event)
      requires Consistent() && At(View(job), i).Waiting?
      modifies this
      ensures e == if notified then Notify(i) else Refuse(i)
      ensures Consistent() && View(job) == Next(old(View(job)), e) && History(job) == old(History(job)) + [e]
      ensures forall other :: other != job ==> View(other) == old(View(other)) && History(other) == old(History(other))
    {
      ghost var before := View(job);
      var all, links := Lookup(handlers, job, []), Lookup(channels, job, []);
      var c := all[i].channel;
      var late: bool := *;
      notified := !late && c < |links| && links[c].link.Sent?;
      SetHandler(job, i, if notified then Signalled(c) else Leaving(c));
      e := if notified then Notify(i) else Refuse(i);
      forall other | other != job ensures View(other) == old(View(other)) {
      }
      Note(job, e, before);
    }

    // Without a notification the listener goes back and the handler gives up.
    method GiveUp(job: string, i: nat)
      requires Consistent() && At(View(job), i).Leaving?
      modifies this
      ensures Consistent() && View(job) == Next(old(View(job)), PutBack(i))
      ensures History(job) == old(History(job)) + [PutBack(i)]
      ensures forall other :: other != job ==> View(other) == old(View(other)) && History(other) == old(History(other))
    {
      ghost var before := View(job);
      listeners := listeners[job := Lookup(handlers, job, [])[i].channel];
      SetHandler(job, i, Gone);
      forall other | other != job ensures View(other) == old(View(other)) {
      }
      Note(job, PutBack(i), before);
    }

    /** After a notification the stored pool is taken out. In a serial job it is there. */
    method TakeStored(job: string, i: nat) returns (pool: Option<nat>)
      requires Consistent() && At(View(job), i).Signalled?
      modifies this
      ensures Consistent() && View(job) == Next(old(View(job)), TakePool(i))
      ensures History(job) == old(History(job)) + [TakePool(i)]
      ensures forall other :: other != job ==> View(other) == old(View(other)) && History(other) == old(History(other))
      ensures pool == old(View(job)).slot
      ensures Serial(Start, old(History(job))) ==> pool.Some?
    {
      ghost var before := View(job);
      if Serial(Start, History(job)) {
        InvariantRun(Start, History(job));
        assert HandlerOk(before, before.handlers[i]);
      }
      pool := LookupOption(pools, job);
      if pool.Some? {
        pools := pools - {job};
        SetHandler(job, i, Equipped(pool.value));
      } else {
        SetHandler(job, i, Panicked);
      }
      forall other | other != job ensures View(other) == old(View(other)) {
      }
      Note(job, TakePool(i), before);
    }

    // With a pool, the handler leaves its own listener and enters its message loop.
    method PublishListener(job: string, i: nat)
      requires Consistent() && At(View(job), i).Equipped?
      modifies this
      ensures Consistent() && View(job) == Next(old(View(job)), Publish(i))
      ensures History(job) == old(History(job)) + [Publish(i)]
      ensures forall other :: other != job ==> View(other) == old(View(other)) && History(other) == old(History(other))
    {
      ghost var before := View(job);
      var pool, links := Lookup(handlers, job, [])[i].pool, Lookup(channels, job, []);
      channels := channels[job := links + [Channel(Open, pool)]];
      listeners := listeners[job := |links|];
      SetHandler(job, i, Running(pool, |links|));
      forall other | other != job ensures View(other) == old(View(other)) {
      }
      Note(job, Publish(i), before);
    }

    // A receive error: the pool is stored, then the listener is notified.
    method StorePool(job: string, i: nat)
      requires Consistent() && At(View(job), i).Running?
      modifies this
      ensures Consistent() && View(job) == Next(old(View(job)), Fail(i))
      ensures History(job) == old(History(job)) + [Fail(i)]
      ensures forall other :: other != job ==> View(other) == old(View(other)) && History(other) == old(History(other))
    {
      ghost var before := View(job);
      var h := Lookup(handlers, job, [])[i];
      pools := pools[job := h.pool];
      SetHandler(job, i, Stored(h.pool, h.channel));
      forall other | other != job ensures View(other) == old(View(other)) {
      }
      Note(job, Fail(i), before);
    }

    method NotifySuccessor(job: string, i: nat)
      requires Consistent() && At(View(job), i).Stored? && Known(View(job), At(View(job), i).channel)
      modifies this
      ensures Consistent() && View(job) == Next(old(View(job)), Signal(i))
      ensures History(job) == old(History(job)) + [Signal(i)]
      ensures forall other :: other != job ==> View(other) == old(View(other)) && History(other) == old(History(other))
    {
      ghost var before := View(job);
      var c, links := Lookup(handlers, job, [])[i].channel, Lookup(channels, job, []);
      channels := channels[job := links[c := links[c].(link := Sent)]];
      SetHandler(job, i, Gone);
      forall other | other != job ensures View(other) == old(View(other)) {
      }
      Note(job, Signal(i), before);
    }

    // A stop: the stored pool is removed, then the listener.
    method RemovePool(job: string, i: nat)
      requires Consistent() && At(View(job), i).Running?
      modifies this
      ensures Consistent() && View(job) == Next(old(View(job)), Stop(i))
      ensures History(job) == old(History(job)) + [Stop(i)]
      ensures forall other :: other != job ==> View(other) == old(View(other)) && History(other) == old(History(other))
    {
      ghost var before := View(job);
      var h := Lookup(handlers, job, [])[i];
      pools := pools - {job};
      SetHandler(job, i, Cleaning(h.pool, h.channel));
      forall other | other != job ensures View(other) == old(View(other)) {
      }
      Note(job, Stop(i), before);
    }

    method RemoveListener(job: string, i: nat)
      requires Consistent() && At(View(job), i).Cleaning? && Known(View(job), At(View(job), i).channel)
      modifies this
      ensures Consistent() && View(job) == Next(old(View(job)), Clean(i))
      ensures History(job) == old(History(job)) + [Clean(i)]
      ensures forall other :: other != job ==> View(other) == old(View(other)) && History(other) == old(History(other))
    {
      ghost var before := View(job);
      var c, links := Lookup(handlers, job, [])[i].channel, Lookup(channels, job, []);
      listeners := listeners - {job};
      channels := channels[job := links[c := links[c].(link := Closed)]];
      SetHandler(job, i, Gone);
      forall other | other != job ensures View(other) == old(View(other)) {
      }
      Note(job, Clean(i), before);
    }

    // The end of the stream: the sender goes, the listener stays.
    method Leave(job: string, i: nat)
      requires Consistent() && At(View(job), i).Running? && Known(View(job), At(View(job), i).channel)
      modifies this
      ensures Consistent() && View(job) == Next(old(View(job)), Abandon(i))
      ensures History(job) == old(History(job)) + [Abandon(i)]
      ensures forall other :: other != job ==> View(other) == old(View(other)) && History(other) == old(History(other))
    {
      ghost var before := View(job);
      var c, links := Lookup(handlers, job, [])[i].channel, Lookup(channels, job, []);
      channels := channels[job := links[c := links[c].(link := Closed)]];
      SetHandler(job, i, Gone);
      forall other | other != job ensures View(other) == old(View(other)) {
      }
      Note(job, Abandon(i), before);
    }
  }
}
