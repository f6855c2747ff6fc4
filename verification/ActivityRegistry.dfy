/** The shared client activity registry (clients/claude_lb_api.py:126-151,
  clients/claude_lb_certs.py:153-200).

  Request handlers run concurrently. Each handler takes three atomic steps: `Begin` (look up or
  create the client's activity and start it, under the registry lock), `End` (under the activity's
  own lock) and `Cleanup` (pop the idle activity, under the registry lock). The handlers' local
  variables are part of the state, so every interleaving is a sequence of these steps.
*/
module ActivityRegistry {

  class LbActivity {
    var inflight: int

    constructor ()
      ensures inflight == 0
    {
      inflight := 0;
    }

    method Start()
      modifies this
      ensures inflight == old(inflight) + 1
    {
      inflight := inflight + 1;
    }

    method End()
      modifies this
      ensures inflight == old(inflight) - 1
    {
      inflight := inflight - 1;
    }
  }

  datatype Phase = Running | Ended

  /** A handler between `Begin` and `Cleanup`: its client, the activity it holds, and whether it called `end`. */
  datatype Handler<A> = Handler(client: string, activity: A, phase: Phase)

  datatype Step = Begin(id: nat, client: string) | End(id: nat) | Cleanup(id: nat)

  type Handlers<A> = map<nat, Handler<A>>

  // ---- the invariant, on values ----

  ghost function Busy<A>(handlers: Handlers<A>, a: A): set<nat> {
    set id | id in handlers && handlers[id].activity == a && handlers[id].phase == Running
  }

  ghost predicate Holds<A>(handlers: Handlers<A>, id: nat, a: A) { id in handlers && handlers[id].activity == a }

  ghost predicate Linked<A>(activities: map<string, A>, handlers: Handlers<A>, made: set<A>, popped: set<A>) {
    && popped <= made
    && (forall c :: c in activities ==> activities[c] in made && activities[c] !in popped)
    && (forall id :: id in handlers ==> handlers[id].activity in made)
    && (forall id :: id in handlers && handlers[id].phase == Running ==>
          handlers[id].client in activities && activities[handlers[id].client] == handlers[id].activity)
    && (forall id, c :: id in handlers && c in activities && handlers[id].activity == activities[c] ==>
         handlers[id].client == c)
    && (forall c :: c in activities ==> exists id :: Holds(handlers, id, activities[c]))
  }

  lemma MappedIsMade<A>(activities: map<string, A>, handlers: Handlers<A>, made: set<A>, popped: set<A>, client: string)
    requires Linked(activities, handlers, made, popped)
    ensures client in activities ==> activities[client] in made && activities[client] !in popped
    ensures popped <= made
  {
  }

  lemma BeginLinked<A>(activities: map<string, A>, handlers: Handlers<A>, made: set<A>, popped: set<A>, id: nat,
      client: string, a: A)
    requires Linked(activities, handlers, made, popped) && id !in handlers
    requires if client in activities then a == activities[client] else a !in made
    ensures Linked(activities[client := a], handlers[id := Handler(client, a, Running)], made + {a}, popped)
  {
    var after := handlers[id := Handler(client, a, Running)];
    var mapped := activities[client := a];
    forall c | c in mapped ensures exists i :: Holds(after, i, mapped[c]) {
      if c == client {
        assert Holds(after, id, a);
      } else {
        var i :| Holds(handlers, i, activities[c]);
        assert Holds(after, i, mapped[c]);
      }
    }
  }

  lemma EndLinked<A>(activities: map<string, A>, handlers: Handlers<A>, made: set<A>, popped: set<A>, id: nat)
    requires Linked(activities, handlers, made, popped) && id in handlers
    ensures Linked(activities, handlers[id := handlers[id].(phase := Ended)], made, popped)
  {
    var after := handlers[id := handlers[id].(phase := Ended)];
    forall c | c in activities ensures exists i :: Holds(after, i, activities[c]) {
      var i :| Holds(handlers, i, activities[c]);
      assert Holds(after, i, activities[c]);
    }
  }

  /** Popping is safe when nobody runs on the activity; not popping is safe when somebody does or it is not mapped. */
  lemma CleanupLinked<A>(activities: map<string, A>, handlers: Handlers<A>, made: set<A>, popped: set<A>, id: nat)
    requires Linked(activities, handlers, made, popped) && id in handlers && handlers[id].phase == Ended
    ensures var h := handlers[id];
      if h.client in activities && activities[h.client] == h.activity && Busy(handlers, h.activity) == {}
      then Linked(activities - {h.client}, handlers - {id}, made, popped + {h.activity})
      else Linked(activities, handlers - {id}, made, popped)
  {
    var h := handlers[id];
    var mine := h.client in activities && activities[h.client] == h.activity;
    var after := handlers - {id};
    forall c | c in activities && !(c == h.client && mine && Busy(handlers, h.activity) == {})
      ensures exists i :: Holds(after, i, activities[c])
    {
      var i :| Holds(handlers, i, activities[c]);
      if i == id {
        var other :| other in Busy(handlers, h.activity);
        assert Holds(after, other, activities[c]);
      } else {
        assert Holds(after, i, activities[c]);
      }
    }
    if mine && Busy(handlers, h.activity) == {} {
      forall c | c in activities && c != h.client ensures activities[c] != h.activity {
      }
      forall i | i in after && after[i].phase == Running ensures after[i].client != h.client {
        assert i !in Busy(handlers, h.activity);
      }
    }
  }

  /** Starting, ending and forgetting a handler move the busy count of its own activity only. */
  lemma BusyMoves<A>(handlers: Handlers<A>, id: nat, h: Handler<A>, a: A)
    ensures id !in handlers && h.phase == Running ==>
      |Busy(handlers[id := h], a)| == |Busy(handlers, a)| + (if a == h.activity then 1 else 0)
    ensures id in handlers && handlers[id] == h && h.phase == Running ==>
      |Busy(handlers[id := h.(phase := Ended)], a)| == |Busy(handlers, a)| - (if a == h.activity then 1 else 0)
    ensures id in handlers && handlers[id] == h && h.phase == Ended ==> Busy(handlers - {id}, a) == Busy(handlers, a)
  {
    var mine := if a == h.activity then {id} else {};
    if id !in handlers && h.phase == Running {
      assert Busy(handlers[id := h], a) == Busy(handlers, a) + mine;
    } else if id in handlers && handlers[id] == h && h.phase == Running {
      assert Busy(handlers[id := h.(phase := Ended)], a) == Busy(handlers, a) - mine;
      assert mine <= Busy(handlers, a);
    }
  }

  // ---- the registry ----

  class Registry {
    var activities: map<string, LbActivity>
    var handlers: Handlers<LbActivity>
    ghost var made: set<LbActivity>
    ghost var popped: set<LbActivity>

    ghost predicate Counted()
      reads this, made
    {
      forall a :: a in made ==> a.inflight == |Busy(handlers, a)|
    }

    ghost predicate Valid()
      reads this, made
    {
      Linked(activities, handlers, made, popped) && Counted()
    }

    constructor ()
      ensures Valid() && handlers == map[] && activities == map[] && popped == {} && made == {}
    {
      activities, handlers, made, popped := map[], map[], {}, {};
    }

    /** Looks up the client's activity, or makes and maps a new idle one. */
    method Lookup(client: string) returns (activity: LbActivity)
      requires Valid()
      modifies this
      ensures if old(client in activities) then activity == old(activities)[client] else fresh(activity)
      ensures activities == old(activities)[client := activity] && made == old(made) + {activity}
      ensures handlers == old(handlers) && popped == old(popped)
      ensures Counted() && (forall a :: a in old(made) ==> unchanged(a))
    {
      if client in activities {
        activity := activities[client];
      } else {
        activity := new LbActivity();
        activities := activities[client := activity];
        made := made + {activity};
        assert Busy(handlers, activity) == {};
      }
    }

    /** `start` reaches an activity that was never popped; nobody else's activity changes. */
    method BeginRequest(id: nat, client: string)
      requires Valid() && id !in handlers
      modifies this, made
      ensures Valid()
      ensures client in activities && activities[client] !in old(popped)
      ensures if old(client in activities) then activities == old(activities)
              else fresh(activities[client]) && activities == old(activities)[client := activities[client]]
      ensures handlers == old(handlers)[id := Handler(client, activities[client], Running)]
      ensures popped == old(popped) && made == old(made) + {activities[client]}
      ensures forall a :: a in old(made) && a != activities[client] ==> a.inflight == old(a.inflight)
    {
      hide Linked, Busy, Holds;
      MappedIsMade(activities, handlers, made, popped, client);
      var activity := Lookup(client);
      BeginLinked(old(activities), old(handlers), old(made), old(popped), id, client, activity);
      forall a { BusyMoves(handlers, id, Handler(client, activity, Running), a); }
      activity.Start();
      handlers := handlers[id := Handler(client, activity, Running)];
    }

    method EndRequest(id: nat)
      requires Valid() && id in handlers && handlers[id].phase == Running
      modifies this, handlers[id].activity
      ensures Valid()
      ensures activities == old(activities) && popped == old(popped) && made == old(made)
      ensures handlers == old(handlers)[id := old(handlers)[id].(phase := Ended)]
    {
      EndLinked(activities, handlers, made, popped, id);
      forall a { BusyMoves(handlers, id, handlers[id], a); }
      var activity := handlers[id].activity;
      activity.End();
      handlers := handlers[id := handlers[id].(phase := Ended)];
    }

    /** Pops the client's activity exactly when it is still this handler's and idle. */
    method CleanupRequest(id: nat)
      requires Valid() && id in handlers && handlers[id].phase == Ended
      modifies this
      ensures Valid()
      ensures made == old(made) && handlers == old(handlers) - {id}
      ensures
        var h := old(handlers)[id];
        if h.client in old(activities) && old(activities)[h.client] == h.activity && h.activity.inflight == 0
        then activities == old(activities) - {h.client} && popped == old(popped) + {h.activity}
        else activities == old(activities) && popped == old(popped)
    {
      CleanupLinked(activities, handlers, made, popped, id);
      forall a { BusyMoves(handlers, id, handlers[id], a); }
      var client, activity := handlers[id].client, handlers[id].activity;
      assert activity.inflight == 0 <==> Busy(handlers, activity) == {};
      if client in activities && activities[client] == activity && activity.inflight == 0 {
        activities := activities - {client};
        popped := popped + {activity};
      }
      handlers := handlers - {id};
    }
  }

  type Requests = map<nat, (string, Phase)>

  /**
   * Which requests are under way, and of which client, after a step; one that a request cannot take yet is passed over.
   */
  ghost function After(requests: Requests, step: Step): Requests {
    match step
    case Begin(id, client) => if id in requests then requests else requests[id := (client, Running)]
    case End(id) => if id in requests && requests[id].1 == Running then requests[id := (requests[id].0, Ended)]
      else requests
    case Cleanup(id) => if id in requests && requests[id].1 == Ended then requests - {id} else requests
  }

  ghost function Replay(requests: Requests, schedule: seq<Step>, n: nat): Requests
    requires n <= |schedule|
  {
    if n == 0 then requests else After(Replay(requests, schedule, n - 1), schedule[n - 1])
  }

  ghost function Underway<A>(handlers: Handlers<A>): Requests {
    map id | id in handlers :: (handlers[id].client, handlers[id].phase)
  }

  lemma UnderwayMoves<A>(handlers: Handlers<A>, id: nat, h: Handler<A>)
    ensures Underway(handlers[id := h]) == Underway(handlers)[id := (h.client, h.phase)]
    ensures Underway(handlers - {id}) == Underway(handlers) - {id}
  {
  }

  /** One handler takes one step. */
  method Take(registry: Registry, step: Step)
    requires registry.Valid()
    modifies registry, registry.made
    ensures registry.Valid() && old(registry.popped) <= registry.popped
    ensures Underway(registry.handlers) == After(old(Underway(registry.handlers)), step)
    ensures forall a :: a in registry.made ==> a in old(registry.made) || fresh(a)
  {
    ghost var handlers := registry.handlers;
    match step
    case Begin(id, client) =>
      if id !in registry.handlers {
        registry.BeginRequest(id, client);
        UnderwayMoves(handlers, id, registry.handlers[id]);
      }
    case End(id) =>
      if id in registry.handlers && registry.handlers[id].phase == Running {
        registry.EndRequest(id);
        UnderwayMoves(handlers, id, registry.handlers[id]);
      }
    case Cleanup(id) =>
      if id in registry.handlers && registry.handlers[id].phase == Ended {
        registry.CleanupRequest(id);
        UnderwayMoves(handlers, id, handlers[id]);
      }
  }

  /** Any schedule of any handlers. */
  method Run(registry: Registry, schedule: seq<Step>)
    requires registry.Valid()
    modifies registry, registry.made
    ensures registry.Valid()
    ensures old(registry.popped) <= registry.popped
    ensures Underway(registry.handlers) == Replay(old(Underway(registry.handlers)), schedule, |schedule|)
  {
    hide Underway, After, Registry.Valid;
    for i := 0 to |schedule|
      invariant registry.Valid()
      invariant old(registry.popped) <= registry.popped
      invariant Underway(registry.handlers) == Replay(old(Underway(registry.handlers)), schedule, i)
      invariant forall a :: a in registry.made ==> a in old(registry.made) || fresh(a)
    {
      Take(registry, schedule[i]);
    }
  }

  /** At most one activity of a client has requests in flight: the mapped one, with the exact count. */
  lemma OneBusyActivityPerClient(r: Registry, i: nat, j: nat)
    requires r.Valid() && i in r.handlers && j in r.handlers
    requires r.handlers[i].client == r.handlers[j].client
    requires r.handlers[i].phase == Running && r.handlers[j].phase == Running
    ensures r.handlers[i].activity == r.handlers[j].activity == r.activities[r.handlers[i].client]
    ensures r.handlers[i].activity.inflight == |Busy(r.handlers, r.handlers[i].activity)| > 0
  {
    assert i in Busy(r.handlers, r.handlers[i].activity);
  }

  /** A popped activity has nothing in flight and is unreachable from the registry. */
  lemma PoppedStaysIdle(r: Registry, a: LbActivity)
    requires r.Valid() && a in r.popped
    ensures a.inflight == 0 && a !in r.activities.Values
  {
    assert Busy(r.handlers, a) == {};
  }

  /** The registry does not leak: once every handler has cleaned up, it is empty. */
  lemma QuietRegistryIsEmpty(r: Registry)
    requires r.Valid() && r.handlers == map[]
    ensures r.activities == map[]
  {
  }
}
