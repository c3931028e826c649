/**
 * The wineserver IO completion port (server/completion.c): a completion
 * object owns a wait object holding a FIFO of completion messages and a
 * depth counter.  Closing the completion clears the wait object's
 * back-pointer, after which waiters see the port as abandoned.
 */
module Completion {
  import opened Words
  import opened Wrappers

  const STATUS_SUCCESS: u32 := 0
  const STATUS_ABANDONED_WAIT_0: u32 := 0x80
  const STATUS_PENDING: u32 := 0x103

  /** struct comp_msg without its list linkage. */
  datatype CompMsg = CompMsg(ckey: u64, cvalue: u64, status: u32, information: u64)

  /** What completion_wait_satisfied does with a waiter woken by the port. */
  datatype WaitOutcome = LockedCompletion | WaitAbandoned

  /** struct completion_wait: the message queue, its depth and the back-pointer to the completion. */
  class CompletionWait {
    var queue: seq<CompMsg>
    var depth: nat
    /** wait->completion != NULL */
    var hasCompletion: bool

    /** The depth counter always equals the number of queued messages. */
    predicate Valid()
      reads this
    {
      depth == |queue|
    }

    /** The wait object as create_completion initialises it: empty, depth 0, linked to its completion. */
    constructor ()
      ensures Valid() && queue == [] && hasCompletion
    {
      queue := [];
      depth := 0;
      hasCompletion := true;
    }

    /** completion_wait_signaled */
    predicate Signaled()
      reads this
    {
      !hasCompletion || |queue| > 0
    }

    /**
     * completion_wait_satisfied: a waiter locks the completion while it
     * exists, and is told the wait was abandoned otherwise.
     */
    function Satisfied(): (w: WaitOutcome)
      reads this
      ensures w == LockedCompletion <==> hasCompletion
    {
      if hasCompletion then LockedCompletion else WaitAbandoned
    }

    /**
     * add_completion: the message goes to the tail and depth grows by one;
     * when the allocation (`allocOk`) fails nothing changes.
     */
    method AddCompletion(msg: CompMsg, allocOk: bool)
      requires Valid()
      modifies this
      ensures Valid() && hasCompletion == old(hasCompletion)
      ensures queue == if allocOk then old(queue) + [msg] else old(queue)
    {
      if !allocOk {
        return;
      }
      queue := queue + [msg];
      depth := depth + 1;
    }

    /**
     * The remove_completion handler once it has the wait object: the head
     * message is dequeued with STATUS_SUCCESS; an empty queue yields
     * STATUS_PENDING while the completion exists and STATUS_ABANDONED_WAIT_0
     * after it was destroyed.  `clearSignal` reports that the object stopped
     * being signaled, which is when the esync/fsync state is cleared.
     */
    method RemoveCompletion() returns (status: u32, msg: Option<CompMsg>, clearSignal: bool)
      requires Valid()
      modifies this
      ensures Valid() && hasCompletion == old(hasCompletion)
      ensures old(queue) == [] ==> queue == [] && msg.None? && !clearSignal
      ensures old(queue) == [] ==> status == if hasCompletion then STATUS_PENDING else STATUS_ABANDONED_WAIT_0
      ensures old(queue) != [] ==> status == STATUS_SUCCESS && msg == Some(old(queue)[0]) && queue == old(queue)[1..]
      ensures old(queue) != [] ==> (clearSignal <==> !Signaled())
    {
      clearSignal := false;
      if |queue| == 0 {
        msg := None;
        if hasCompletion {
          status := STATUS_PENDING;
        } else {
          status := STATUS_ABANDONED_WAIT_0;
        }
      } else {
        msg := Some(queue[0]);
        queue := queue[1..];
        depth := depth - 1;
        status := STATUS_SUCCESS;
        if !Signaled() {
          clearSignal := true;
        }
      }
    }

    /** query_completion: reports the depth, which is the queue length, and changes nothing. */
    method QueryCompletion() returns (d: nat)
      requires Valid()
      ensures d == |queue|
    {
      d := depth;
    }
  }

  /** struct completion: the named object, holding its wait object. */
  class CompletionPort {
    const wait: CompletionWait

    constructor ()
      ensures fresh(wait) && wait.Valid() && wait.queue == [] && wait.hasCompletion
    {
      wait := new CompletionWait();
    }

    /**
     * completion_destroy: clears the wait object's back-pointer; queued
     * messages stay and the wait object becomes signaled.
     */
    method Destroy()
      requires wait.Valid()
      modifies wait
      ensures wait.Valid() && !wait.hasCompletion && wait.queue == old(wait.queue)
      ensures wait.Signaled()
    {
      wait.hasCompletion := false;
    }
  }

  /** Messages come out in the order they went in. */
  method FifoScenario(a: CompMsg, b: CompMsg) returns (first: Option<CompMsg>, second: Option<CompMsg>, third: u32)
    ensures first == Some(a) && second == Some(b) && third == STATUS_PENDING
  {
    var w := new CompletionWait();
    w.AddCompletion(a, true);
    w.AddCompletion(b, true);
    var s1, c1;
    s1, first, c1 := w.RemoveCompletion();
    var s2, c2;
    s2, second, c2 := w.RemoveCompletion();
    var m3, c3;
    third, m3, c3 := w.RemoveCompletion();
  }

  /** After destroy, an empty port reports abandonment. */
  method AbandonScenario(a: CompMsg) returns (first: u32, second: u32)
    ensures first == STATUS_SUCCESS && second == STATUS_ABANDONED_WAIT_0
  {
    var port := new CompletionPort();
    port.wait.AddCompletion(a, true);
    port.Destroy();
    var m1, c1, m2, c2;
    first, m1, c1 := port.wait.RemoveCompletion();
    second, m2, c2 := port.wait.RemoveCompletion();
  }
}
