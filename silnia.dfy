/** The factorial client of silnia.c.  The root actor receives the input
  `num` and spawns a chain of actors; each child receives its parent's
  record (factor, factorial, num) and computes the next factorial, until the
  actor whose factor reaches `num` prints its factorial.  Then each actor
  tells its father to stop and terminates itself.

  Each handler is a method on the actor's heap state record: it updates the
  fields in place and returns, in order, the messages it passes to
  send_message. */
module Silnia {
  import opened CactiSpec

  // The message tags of this client.
  const MSG_MEET_CHILD: int := 1
  const MSG_COMPUTE: int := 2
  const MSG_KYS: int := 3
  const MSG_GETDATA: int := 4

  /** Handler tables: `prompts` for the spawned actors, `prompts_first_actor`
    for the root. */
  const PROMPTS: HandlerTable := 0
  const PROMPTS_FIRST_ACTOR: HandlerTable := 1

  /** The role of every spawned actor: hello, meet_your_child, compute,
    kill_yourself. */
  const ROLE: Role := Role(4, PROMPTS)
  /** The root's role, with get_data as a fifth handler. */
  const FIRST_ACTOR_ROLE: Role := Role(5, PROMPTS_FIRST_ACTOR)

  /** factorial_t */
  datatype Fact = Fact(factor: int, factorial: int, num: int)

  /** What a message of this client carries. */
  datatype Data = NoData | ActorRef(id: ActorId) | FactRecord(f: Fact) | SpawnRole(role: Role)

  /** One send_message made by a handler. */
  datatype Out = Out(target: ActorId, tag: int, data: Data)

  datatype Option<T> = None | Some(value: T)

  function Factorial(n: nat): int {
    if n == 0 then 1 else n * Factorial(n - 1)
  }

  /** A record whose factorial is the factorial of its factor. */
  predicate Consistent(f: Fact) {
    0 <= f.factor && f.factorial == Factorial(f.factor)
  }

  /** The arithmetic of compute: copy num, take the next factor and multiply
    it into the incoming factorial. */
  function ComputeStep(incoming: Fact): Fact {
    Fact(incoming.factor + 1, incoming.factorial * (incoming.factor + 1), incoming.num)
  }

  /** The record get_data gives the root. */
  function RootFact(num: int): Fact {
    Fact(1, 1, num)
  }

  /** compute keeps factorial == factor!, and the root starts with it. */
  lemma ComputeKeepsConsistent(incoming: Fact)
    requires Consistent(incoming)
    ensures Consistent(ComputeStep(incoming))
    ensures ComputeStep(incoming).factor == incoming.factor + 1 && ComputeStep(incoming).num == incoming.num
  {
  }

  /** The record held by the actor `depth` links down the chain (the root
    has depth 0). */
  function ChainFact(num: int, depth: nat): Fact {
    if depth == 0 then RootFact(num) else ComputeStep(ChainFact(num, depth - 1))
  }

  /** Down the chain, the actor at depth d holds factor d + 1 and its
    factorial. */
  lemma {:induction false} ChainFactIs(num: int, depth: nat)
    ensures ChainFact(num, depth) == Fact(depth + 1, Factorial(depth + 1), num)
  {
    if depth > 0 {
      ChainFactIs(num, depth - 1);
      ComputeKeepsConsistent(ChainFact(num, depth - 1));
    }
  }

  /** For an input of at least 2 every child above depth num - 1 spawns the
    next one, and the child at depth num - 1 is the one that prints; what
    it prints is num!. */
  lemma ChainPrintsFactorial(num: nat, depth: nat)
    requires 2 <= num && 1 <= depth <= num - 1
    ensures ChainFact(num, depth).factor == ChainFact(num, depth).num <==> depth == num - 1
    ensures depth == num - 1 ==> ChainFact(num, depth).factorial == Factorial(num)
  {
    ChainFactIs(num, depth);
  }

  /** What main does before starting the system. */
  datatype Start = Failure | Prints(value: int) | Starts(num: nat)

  /** main: a negative input exits with status 1, 0 and 1 print 1 without
    creating a system, and any other input is sent to the root as GETDATA. */
  function MainStart(num: int): (r: Start)
    ensures r == Failure <==> num < 0
    ensures r.Prints? <==> 0 <= num <= 1
    ensures r.Prints? ==> r.value == Factorial(num)
    ensures r.Starts? ==> r.num == num && 2 <= num
  {
    if num < 0 then Failure
    else if num == 0 || num == 1 then Prints(1)
    else Starts(num)
  }

  /** state_t: the record behind an actor's state slot. */
  class State {
    var f: Fact
    var fatherId: ActorId
    var myId: ActorId
    var childId: ActorId

    /** malloc(sizeof(state_t)) with the two ids filled in; the other
      fields hold whatever the allocation left there. */
    constructor (fatherId: ActorId, myId: ActorId)
      ensures this.fatherId == fatherId && this.myId == myId
    {
      this.fatherId := fatherId;
      this.myId := myId;
    }

    /** hello: a spawned actor allocates its state, takes the payload as its
      father's id, and introduces itself to its father.  The record `f` is
      left as malloc gives it; it is written by compute before it is read. */
    static method Hello(self: ActorId, father: ActorId) returns (st: State, sends: seq<Out>)
      ensures fresh(st)
      ensures st.fatherId == father && st.myId == self
      ensures sends == [Out(father, MSG_MEET_CHILD, ActorRef(self))]
    {
      st := new State(father, self);
      sends := [Out(st.fatherId, MSG_MEET_CHILD, ActorRef(st.myId))];
    }

    /** get_data: the root allocates its state, starting at factor 1 with
      factorial 1 and as its own father, and asks for a child. */
    static method GetData(self: ActorId, num: int) returns (st: State, sends: seq<Out>)
      ensures fresh(st)
      ensures st.f == RootFact(num) && Consistent(st.f)
      ensures st.myId == self && st.fatherId == self
      ensures sends == [Out(self, MSG_SPAWN, SpawnRole(ROLE))]
    {
      st := new State(self, self);
      st.f := Fact(1, 1, num);
      sends := [Out(st.myId, MSG_SPAWN, SpawnRole(ROLE))];
    }

    /** meet_your_child: remember the child and send it this actor's record
      to compute on. */
    method MeetYourChild(child: ActorId) returns (sends: seq<Out>)
      modifies this
      ensures childId == child
      ensures f == old(f) && fatherId == old(fatherId) && myId == old(myId)
      ensures sends == [Out(child, MSG_COMPUTE, FactRecord(f))]
    {
      childId := child;
      sends := [Out(childId, MSG_COMPUTE, FactRecord(f))];
    }

    /** compute: take the next step of the chain from the father's record;
      print and stop when the factor has reached num, and otherwise spawn
      the next link. */
    method Compute(incoming: Fact) returns (sends: seq<Out>, printed: Option<int>)
      modifies this
      ensures f == ComputeStep(incoming)
      ensures fatherId == old(fatherId) && myId == old(myId) && childId == old(childId)
      ensures f.num == f.factor ==> printed == Some(f.factorial) && sends == [Out(myId, MSG_KYS, NoData)]
      ensures f.num != f.factor ==> printed == None && sends == [Out(myId, MSG_SPAWN, SpawnRole(ROLE))]
    {
      var factor := incoming.factor + 1;
      f := Fact(factor, incoming.factorial * factor, incoming.num);
      if f.num == f.factor {
        printed := Some(f.factorial);
        sends := [Out(myId, MSG_KYS, NoData)];
      } else {
        printed := None;
        sends := [Out(myId, MSG_SPAWN, SpawnRole(ROLE))];
      }
    }

    /** kill_yourself: a non-root actor passes the stop on to its father;
      every actor then terminates itself with GODIE.  The state is freed
      and not touched again. */
    method KillYourself() returns (sends: seq<Out>)
      ensures |sends| >= 1 && sends[|sends| - 1] == Out(myId, MSG_GODIE, NoData)
      ensures myId != fatherId <==> |sends| == 2
      ensures myId != fatherId ==> sends[0] == Out(fatherId, MSG_KYS, NoData)
    {
      sends := [];
      if myId != fatherId {
        sends := sends + [Out(fatherId, MSG_KYS, NoData)];
      }
      var me := myId;
      sends := sends + [Out(me, MSG_GODIE, NoData)];
    }
  }
}
