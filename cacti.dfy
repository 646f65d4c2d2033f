/** The actor system of cacti.c as an object: the actor table is an array
  that grows by reallocation, the counters and flags are fields that the
  operations overwrite, and the ready-queue of actor ids is a ring buffer.
  Locks, threads and signals are erased: every method is one operation of
  cacti.c run without interference, and each is proved to perform the
  corresponding transition of CactiSpec on the abstract view of the
  system, so the invariant and the lemmas proved there hold of the object. */
module Cacti {
  import Queue
  import opened CactiSpec

  /** realloc of the actor table to `n` cells, keeping the old ones. */
  method GrowTable(a: array<ActorView>, n: nat) returns (b: array<ActorView>)
    requires a.Length <= n
    ensures fresh(b) && b.Length == n
    ensures b[..a.Length] == a[..]
  {
    b := new ActorView[n];
    var i := 0;
    while i < a.Length
      invariant 0 <= i <= a.Length
      invariant forall j :: 0 <= j < i ==> b[j] == a[j]
    {
      b[i] := a[i];
      i := i + 1;
    }
  }

  class ActorSystem {
    // public view
    ghost var Actors: seq<ActorView>
    ghost var Repr: set<object>

    // the fields of actor_system_t that the sequential model keeps
    var actors: array<ActorView>
    var actorCount: nat
    var actorsCapacity: nat
    var deadCount: nat
    var actorQueue: Queue.RingQueue<ActorId>
    var allWorkDone: bool
    var interrupted: bool

    /** The system as a value. */
    ghost function View(): SystemView
      reads this, actorQueue
    {
      SystemView(Actors, actorQueue.Contents, deadCount, actorsCapacity, allWorkDone, interrupted)
    }

    /** The first actor_count cells of the table hold the actors, and the
      ready-queue is a valid ring buffer apart from the table. */
    ghost predicate Table()
      reads this, Repr
    {
      this in Repr && actors in Repr && actorQueue in Repr && actorQueue.Repr <= Repr &&
      this !in actorQueue.Repr && actors !in actorQueue.Repr && actorQueue.Valid() &&
      actors.Length == actorsCapacity && actorCount <= actorsCapacity &&
      Actors == actors[..actorCount]
    }

    /** The concrete state represents a view that satisfies the runtime's
      invariant. */
    ghost predicate Valid()
      reads this, Repr
    {
      Table() && Inv(View())
    }

    /** actor_system_create: an empty table of DATA_SIZE cells and an empty
      ready-queue, then actor 0 with the root role, sent HELLO with no
      payload. */
    constructor Create(root: Role)
      ensures Valid() && fresh(Repr)
      ensures View() == Initial(root)
    {
      actors := new ActorView[DATA_SIZE];
      actorCount, actorsCapacity, deadCount := 0, DATA_SIZE, 0;
      allWorkDone, interrupted := false, false;
      actorQueue := new Queue.RingQueue<ActorId>.Create();
      Actors := [];
      new;
      Repr := {this, actors} + actorQueue.Repr;
      ghost var before := Repr;
      assert fresh(before);
      Boot(root);
      assert fresh(Repr - before);
    }

    /** The two calls that finish actor_system_create: create_actor for the
      root role, then the HELLO message to it. */
    method Boot(root: Role)
      requires Valid() && View() == SystemView([], [], 0, DATA_SIZE, false, false)
      modifies Repr
      ensures View() == Initial(root)
      ensures Valid() && fresh(Repr - old(Repr))
    {
      var err := CreateActor(0, root, true);
      var sent := SendMessage(0, Message(MSG_HELLO, 0, Null));
    }

    /** Overwrite the record of actor `i` in the table. */
    method SetActor(i: nat, a: ActorView)
      requires Table() && i < actorCount
      modifies this, actors
      ensures Table() && View() == old(View()).(actors := old(Actors)[i := a])
      ensures Repr == old(Repr) && actors == old(actors) && actorCount == old(actorCount)
    {
      actors[i] := a;
      Actors := Actors[i := a];
    }

    /** The realloc in create_actor that doubles a full actor table. */
    method Grow()
      requires Table() && actorCount == actorsCapacity
      modifies this
      ensures Table() && View() == old(View()).(capacity := 2 * old(actorsCapacity))
      ensures fresh(Repr - old(Repr)) && fresh(actors) && actorCount == old(actorCount)
    {
      actors := GrowTable(actors, 2 * actorsCapacity);
      actorsCapacity := 2 * actorsCapacity;
      Repr := Repr + {actors};
    }

    /** Fill cell actor_count with `a` and count it. */
    method AppendActor(a: ActorView)
      requires Table() && actorCount < actorsCapacity
      modifies this, actors
      ensures Table() && View() == old(View()).(actors := old(Actors) + [a])
      ensures Repr == old(Repr) && actorCount == old(actorCount) + 1
    {
      actors[actorCount] := a;
      Actors := Actors + [a];
      actorCount := actorCount + 1;
    }

    /** Push an id onto the ready-queue. */
    method Enqueue(id: ActorId)
      requires Table()
      modifies Repr
      ensures Table() && View() == old(View()).(ready := old(View()).ready + [id])
      ensures fresh(Repr - old(Repr)) && actorCount == old(actorCount)
    {
      var queued := actorQueue.Push(id);
      Repr := Repr + actorQueue.Repr;
    }

    /** Pop the head of the ready-queue. */
    method Dequeue() returns (id: ActorId)
      requires Table() && actorQueue.Contents != []
      modifies actorQueue
      ensures id == old(View()).ready[0]
      ensures Table() && View() == old(View()).(ready := old(View()).ready[1..])
      ensures Repr == old(Repr) && actorCount == old(actorCount)
    {
      id := actorQueue.Pop();
    }

    /** actor_exists */
    method ActorExists(actor: ActorId) returns (b: bool)
      requires Valid()
      ensures b <==> CactiSpec.ActorExists(View(), actor)
    {
      if actor < 0 {
        return false;
      }
      b := actor < actorCount;
    }

    /** create_actor for `id == actor_count`.  `allocOk` says whether the
      per-actor allocations succeed; when they do not, the count is rolled
      back, but a capacity doubled on the way stays doubled. */
    method CreateActor(id: ActorId, role: Role, allocOk: bool) returns (err: int)
      requires Valid() && id == actorCount && !allWorkDone
      modifies this, actors
      ensures View() == CactiSpec.CreateActor(old(View()), role, allocOk).system
      ensures err == CactiSpec.CreateActor(old(View()), role, allocOk).code
      ensures Valid() && fresh(Repr - old(Repr))
    {
      ghost var s := View();
      if actorCount == CAST_LIMIT {
        return -2;
      }
      if actorCount + 1 > actorsCapacity {
        Grow();
      }
      if !allocOk {
        CreateActorKeepsInv(s, role, allocOk);
        return -1;
      }
      AppendActor(ActorView(false, role, [], Null));
      CreateActorKeepsInv(s, role, allocOk);
      err := 0;
    }

    /** send_message */
    method SendMessage(actor: ActorId, message: Message) returns (r: int)
      requires Valid() && WellFormed(message)
      modifies Repr
      ensures View() == CactiSpec.SendMessage(old(View()), actor, message).system
      ensures r == CactiSpec.SendMessage(old(View()), actor, message).code
      ensures Valid() && fresh(Repr - old(Repr))
    {
      ghost var s := View();
      var known := ActorExists(actor);
      if !known {
        return -2;
      }
      var target := actors[actor];
      var qSize := |target.mailbox|;
      var dead := interrupted || target.isDead;
      if dead || qSize == ACTOR_QUEUE_LIMIT {
        if dead {
          return -1;
        } else {
          return -3;
        }
      }
      SetActor(actor, target.(mailbox := target.mailbox + [message]));
      if qSize == 0 {
        Enqueue(actor);
      }
      SendKeepsInv(s, actor, message);
      r := 0;
    }

    /** go_die, for the actor whose message is being processed. */
    method GoDie(actor: ActorId)
      requires Valid() && 0 <= actor < actorCount && actor !in actorQueue.Contents
      modifies this, actors
      ensures View() == CactiSpec.GoDie(old(View()), actor)
      ensures Valid() && Repr == old(Repr)
    {
      ghost var s := View();
      var record := actors[actor];
      SetActor(actor, record.(isDead := true));
      if record.isDead {
        assert s.actors[actor := record.(isDead := true)] == s.actors;
        GoDieKeepsInv(s, actor);
        return;
      }
      deadCount := deadCount + 1;
      allWorkDone := deadCount == actorCount;
      GoDieKeepsInv(s, actor);
    }

    /** spawn: the message carries the new actor's role; `actor` is the
      spawning one, whose id the HELLO carries. */
    method Spawn(message: Message, actor: ActorId)
      requires Valid() && message.data.RoleOf? && !allWorkDone
      modifies Repr
      ensures View() == CactiSpec.Spawn(old(View()), actor, message.data.role)
      ensures Valid() && fresh(Repr - old(Repr))
    {
      ghost var s := View();
      SpawnKeepsInv(s, actor, message.data.role);
      if interrupted {
        return;
      }
      var newActorId := actorCount;
      var err := CreateActor(newActorId, message.data.role, true);
      if err == -2 {
        return;
      }
      SpawnHelloAccepted(s, actor, message.data.role);
      var sent := SendMessage(newActorId, Message(MSG_HELLO, ACTOR_ID_SIZE, Id(actor)));
      // In this model spawn is one uninterrupted step and its allocations
      // succeed (`allocOk` is true), so neither exit(1) of spawn is reached;
      // a signal between the check above and the HELLO, or a failed
      // allocation, is not modelled
      assert err == 0 && sent == 0;
    }

    /** The handler's run inside work_with_actor: the state it leaves is
      stored in the actor's slot and its messages are sent one after the
      other. */
    method RunHandler(actor: ActorId, effect: Effect)
      requires Valid() && 0 <= actor < actorCount && SendsOk(effect.sends)
      modifies Repr
      ensures View() == CactiSpec.RunHandler(old(View()), actor, effect)
      ensures Valid() && fresh(Repr - old(Repr))
    {
      ghost var s := View();
      SetActor(actor, actors[actor].(state := effect.state));
      StoreStateKeepsInv(s, actor, effect.state);
      SendAll(effect.sends);
    }

    /** The send_message calls a handler makes, in order. */
    method SendAll(sends: seq<Send>)
      requires Valid() && SendsOk(sends)
      modifies Repr
      ensures View() == CactiSpec.SendAll(old(View()), sends)
      ensures Valid() && fresh(Repr - old(Repr))
    {
      var i := 0;
      while i < |sends|
        invariant 0 <= i <= |sends|
        invariant View() == CactiSpec.SendAll(old(View()), sends[..i])
        invariant Valid() && fresh(Repr - old(Repr))
      {
        assert sends[..i + 1][..i] == sends[..i];
        var sent := SendMessage(sends[i].target, sends[i].message);
        i := i + 1;
      }
      assert sends[..i] == sends;
    }

    /** work_with_actor: pop one message of an actor just taken from the
      ready-queue and process it. */
    method WorkWithActor(actor: ActorId, behaviour: Invocation -> Effect) returns (step: Step)
      requires Valid() && Dispatchable(View(), actor) && BehaviourOk(behaviour)
      modifies Repr
      ensures Dispatch(old(View()), actor, behaviour) == Dispatched(View(), step)
      ensures Valid() && fresh(Repr - old(Repr))
    {
      ghost var s := View();
      var current := actors[actor];
      SetActor(actor, current.(mailbox := current.mailbox[1..]));
      PopKeepsInv(s, actor);
      step := Process(actor, current.mailbox[0], current.mailbox[1..] != [], behaviour);
    }

    /** The rest of work_with_actor, once `message` is popped; `more` is
      whether the mailbox still holds messages. */
    method Process(actor: ActorId, message: Message, more: bool, behaviour: Invocation -> Effect)
      returns (step: Step)
      requires Valid() && 0 <= actor < actorCount && !Actors[actor].isDead && actor !in actorQueue.Contents
      requires WellFormed(message) && (more <==> Actors[actor].mailbox != []) && BehaviourOk(behaviour)
      modifies Repr
      ensures CactiSpec.Process(old(View()), actor, message, more, behaviour) == Dispatched(View(), step)
      ensures Valid() && fresh(Repr - old(Repr))
    {
      ghost var s := View();
      if message.tag == MSG_GODIE {
        GoDie(actor);
        return Died;
      }
      var current := actors[actor];
      if message.tag == MSG_SPAWN {
        AliveMeansWorkLeft(s, actor);
        Spawn(message, actor);
        step := Spawned;
        if more {
          SpawnKeepsWaiting(s, actor, message.data.role);
        }
        Requeue(actor, more);
      } else {
        // the source compares (size_t)tag with nprompts
        if message.tag < 0 || message.tag >= current.role.nprompts {
          return Dropped;
        }
        var call := Invocation(actor, current.role.prompts, message.tag, message.nbytes, message.data, current.state);
        var effect := behaviour(call);
        RunHandler(actor, effect);
        step := Handled(call);
        if more {
          SendAllKeepsWaiting(s.(actors := s.actors[actor := s.actors[actor].(state := effect.state)]),
                              effect.sends, actor);
        }
        Requeue(actor, more);
      }
    }

    /** The tail of work_with_actor: put the actor back in the ready-queue
      when it had more messages after the pop. */
    method Requeue(actor: ActorId, more: bool)
      requires Valid() && (more ==> Runnable(View(), actor) && actor !in actorQueue.Contents)
      modifies Repr
      ensures View() == CactiSpec.Requeue(old(View()), actor, more)
      ensures Valid() && fresh(Repr - old(Repr))
    {
      if more {
        RequeueKeepsInv(View(), actor);
        Enqueue(actor);
      }
    }

    /** One pass of the outer loop of worker. */
    method WorkerIteration(behaviour: Invocation -> Effect) returns (step: WorkerStep)
      requires Valid() && BehaviourOk(behaviour)
      modifies Repr
      ensures CactiSpec.WorkerIteration(old(View()), behaviour) == Iterated(View(), step)
      ensures Valid() && fresh(Repr - old(Repr))
    {
      ghost var s := View();
      if !(actorCount == 0 || actorCount != deadCount) {
        return Exit;
      }
      var isEmpty := actorQueue.Empty();
      if isEmpty {
        if allWorkDone || interrupted {
          return Exit;
        }
        return Wait;
      }
      ReadyHeadDispatchable(s);
      DequeueKeepsInv(s);
      var current := Dequeue();
      var done := WorkWithActor(current, behaviour);
      step := Ran(current, done);
    }

    /** block_system, the SIGINT handler: raise the interrupted flag. */
    method Interrupt()
      requires Valid()
      modifies this
      ensures View() == old(View()).(interrupted := true)
      ensures Valid() && Repr == old(Repr)
    {
      interrupted := true;
    }
  }
}
