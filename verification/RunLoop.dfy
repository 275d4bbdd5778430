/**
 The queue of `PollingRunLoop`: a circular list through a sentinel that is part of the
 loop object. The sentinel's `tail` is the last task, or the sentinel itself.
 */
module RunLoop {
  class Task {
    var next: Task?
    var tail: Task?  // used in the sentinel only

    // A task is its own successor until it is queued.
    constructor ()
      ensures next == this
    {
      next, tail := this, null;
    }
  }

  ghost function Following(tasks: seq<Task>, i: nat, end: Task): Task {
    if i + 1 < |tasks| then tasks[i + 1] else end
  }

  // Dropping the first task shifts who follows whom.
  lemma FollowingShifted(tasks: seq<Task>, i: nat, end: Task)
    requires tasks != []
    ensures Following(tasks[1..], i, end) == Following(tasks, i + 1, end)
  {
  }

  class PollingRunLoop {
    const head: Task
    ghost var queue: seq<Task>
    ghost var pushed: seq<Task>  // every task ever queued, in order
    ghost var popped: seq<Task>  // every task ever handed out, in order

    // The links form one cycle head -> queue[0] -> ... -> head, and tasks leave in the
    // order they came.
    ghost predicate Valid()
      reads this, head, queue
    {
      && head !in queue
      && (forall i, j :: 0 <= i < j < |queue| ==> queue[i] != queue[j])
      && head.next == (if queue == [] then head else queue[0])
      && head.tail == (if queue == [] then head else queue[|queue| - 1])
      && (forall i :: 0 <= i < |queue| ==> queue[i].next == Following(queue, i, head))
      && pushed == popped + queue
    }

    constructor ()
      ensures Valid() && queue == [] && pushed == [] && fresh(head)
    {
      head := new Task();
      queue, pushed, popped := [], [], [];
      new;
      head.tail := head;
    }

    method PushBack(task: Task)
      requires Valid() && task != head && task !in queue
      modifies this, head, queue, task
      ensures Valid() && queue == old(queue) + [task]
      ensures pushed == old(pushed) + [task] && popped == old(popped)
    {
      task.next := head;
      head.tail.next := task;
      head.tail := task;
      queue := queue + [task];
      pushed := pushed + [task];
      assert forall i :: 0 <= i < |old(queue)| ==> queue[i] == old(queue)[i];
      assert pushed == popped + queue;
    }

    // The ghost fields after the first task is unlinked.
    ghost method Advance()
      requires queue != [] && head !in queue && pushed == popped + queue
      requires forall i, j :: 0 <= i < j < |queue| ==> queue[i] != queue[j]
      requires forall i :: 0 <= i < |queue| ==> queue[i].next == Following(queue, i, head)
      requires head.next == Following(queue, 0, head) && head.tail == if |queue| == 1 then head else queue[|queue| - 1]
      modifies this`queue, this`popped
      ensures Valid() && queue == old(queue)[1..] && popped == old(popped) + [old(queue)[0]]
    {
      ghost var tasks := queue;
      popped := popped + [queue[0]];
      queue := queue[1..];
      forall i | 0 <= i < |queue| ensures queue[i].next == Following(queue, i, head) { FollowingShifted(tasks, i, head); }
      assert pushed == popped + queue;
    }

    method TryPopFront() returns (task: Task?)
      requires Valid()
      modifies this, head
      ensures Valid() && pushed == old(pushed)
      ensures task == null <==> old(queue) == []
      ensures task == null ==> queue == [] && popped == old(popped)
      ensures task != null ==> task == old(queue)[0] && queue == old(queue)[1..] && popped == old(popped) + [task]
    {
      if head.next == head {
        return null;
      }
      if head.tail == head.next {
        head.tail := head;
      }
      task := head.next;
      assert task.next == Following(queue, 0, head);
      head.next := task.next;
      Advance();
    }
  }
}
