/** Handing requests to the disk backend: the loop of one submitter. What becomes of
    requests among all threads is in `IoThreads`. */
module IoEngine {
  import opened Types

  // Handing requests to the backend

  type RequestId = nat
  type ErrorCode = nat

  /** The backend's answer to one call: how many it took, or an error. */
  datatype Answer = Took(count: nat) | Refused(error: ErrorCode)

  /** The requests whose mark is `taken`. */
  function Select(requests: seq<RequestId>, marks: seq<bool>, taken: bool): seq<RequestId>
    requires |marks| <= |requests|
  {
    if marks == [] then []
    else
      var last := |marks| - 1;
      Select(requests, marks[..last], taken) + if marks[last] == taken then [requests[last]] else []
  }

  /** Which of `n` requests the backend takes, from its `call`-th answer on. */
  function Marks(n: nat, call: nat, backend: nat -> Answer, stopped: nat -> bool): seq<bool>
    decreases n
  {
    if n == 0 then []
    else if stopped(call) then seq(n, _ => false)
    else if backend(call).Took? && backend(call).count > 0 then
      var count := if backend(call).count <= n then backend(call).count else n;
      seq(count, _ => true) + Marks(n - count, call + 1, backend, stopped)
    else [false] + Marks(n - 1, call + 1, backend, stopped)
  }

  lemma {:induction false} SelectMany(requests: seq<RequestId>, marks: seq<bool>, n: nat)
    requires |marks| + n <= |requests|
    ensures Select(requests, marks + seq(n, _ => true), true) ==
      Select(requests, marks, true) + requests[|marks|..|marks| + n]
    ensures Select(requests, marks + seq(n, _ => true), false) == Select(requests, marks, false)
  {
    if n == 0 {
      assert marks + seq(n, _ => true) == marks;
    } else {
      var more := marks + seq(n, _ => true);
      SelectMany(requests, marks, n - 1);
      assert more[..|more| - 1] == marks + seq(n - 1, _ => true);
      assert requests[|marks|..|marks| + n] == requests[|marks|..|marks| + n - 1] + [requests[|marks| + n - 1]];
    }
  }

  lemma SelectOne(requests: seq<RequestId>, marks: seq<bool>)
    requires |marks| < |requests|
    ensures Select(requests, marks + [false], true) == Select(requests, marks, true)
    ensures Select(requests, marks + [false], false) == Select(requests, marks, false) + [requests[|marks|]]
  {
    assert (marks + [false])[..|marks|] == marks;
  }

  lemma SelectRest(requests: seq<RequestId>, marks: seq<bool>)
    requires |marks| <= |requests|
    ensures |marks + seq(|requests| - |marks|, _ => false)| == |requests|
    ensures Select(requests, marks + seq(|requests| - |marks|, _ => false), true) == Select(requests, marks, true)
    ensures Select(requests, marks + seq(|requests| - |marks|, _ => false), false) ==
      Select(requests, marks, false) + requests[|marks|..]
    decreases |requests| - |marks|
  {
    var n := |requests| - |marks|;
    if n == 0 {
      assert marks + seq(n, _ => false) == marks;
    } else {
      SelectOne(requests, marks);
      SelectRest(requests, marks + [false]);
      assert marks + [false] + seq(n - 1, _ => false) == marks + seq(n, _ => false);
      assert requests[|marks|..] == [requests[|marks|]] + requests[|marks| + 1..];
    }
  }

  /** The loop has handled the first requests as `marks` says, and the rest will make
      it `all`. */
  ghost predicate Handled(requests: seq<RequestId>, marks: seq<bool>, call: nat, backend: nat -> Answer,
    stopped: nat -> bool,
                          taken: seq<RequestId>, completed: seq<RequestId>, all: seq<bool>) {
    && |marks| <= |requests| && marks + Marks(|requests| - |marks|, call, backend, stopped) == all
    && taken == Select(requests, marks, true) && completed == Select(requests, marks, false)
  }

  lemma Accepts(requests: seq<RequestId>, marks: seq<bool>, call: nat, backend: nat -> Answer, stopped: nat -> bool,
                taken: seq<RequestId>, completed: seq<RequestId>, all: seq<bool>, count: nat)
    requires Handled(requests, marks, call, backend, stopped, taken, completed, all) && |marks| < |requests|
    requires !stopped(call)
    requires backend(call).Took? && backend(call).count > 0
    requires count == if backend(call).count <= |requests| - |marks| then backend(call).count else |requests| - |marks|
    ensures Handled(requests, marks + seq(count, _ => true), call + 1, backend, stopped,
                    taken + requests[|marks|..|marks| + count], completed, all)
  {
    SelectMany(requests, marks, count);
    Regroup(marks, seq(count, _ => true), Marks(|requests| - |marks| - count, call + 1, backend, stopped));
  }

  lemma Refuses(requests: seq<RequestId>, marks: seq<bool>, call: nat, backend: nat -> Answer, stopped: nat -> bool,
                taken: seq<RequestId>, completed: seq<RequestId>, all: seq<bool>)
    requires Handled(requests, marks, call, backend, stopped, taken, completed, all) && |marks| < |requests|
    requires !stopped(call)
    requires !(backend(call).Took? && backend(call).count > 0)
    ensures Handled(requests, marks + [false], call + 1, backend, stopped, taken, completed + [requests[|marks|]], all)
  {
    SelectOne(requests, marks);
    Regroup(marks, [false], Marks(|requests| - |marks| - 1, call + 1, backend, stopped));
  }

  lemma Regroup(a: seq<bool>, b: seq<bool>, c: seq<bool>)
    ensures a + (b + c) == a + b + c
  {
  }

  /** Every request is taken by the backend or completed here, once, in order,
      whatever prefix the backend takes, refuses or the engine's stop cuts off. */
  method SubmitTagged(requests: seq<RequestId>, backend: nat -> Answer, stopped: nat -> bool)
    returns (taken: seq<RequestId>, completed: seq<RequestId>)
    ensures var marks := Marks(|requests|, 0, backend, stopped);
      |marks| == |requests| && taken == Select(requests, marks, true) && completed == Select(requests, marks, false)
  {
    taken, completed := [], [];
    ghost var marks: seq<bool>, all := [], Marks(|requests|, 0, backend, stopped);
    var offset, call := 0, 0;
    while offset < |requests|
      invariant offset == |marks| && Handled(requests, marks, call, backend, stopped, taken, completed, all)
    {
      if stopped(call) {
        SelectRest(requests, marks);
        completed := completed + requests[offset..];
        return;
      }
      var answer := backend(call);
      if answer.Took? && answer.count > 0 {
        var count := if answer.count <= |requests| - offset then answer.count else |requests| - offset;
        Accepts(requests, marks, call, backend, stopped, taken, completed, all, count);
        taken := taken + requests[offset..offset + count];
        marks, offset := marks + seq(count, _ => true), offset + count;
      } else {
        Refuses(requests, marks, call, backend, stopped, taken, completed, all);
        completed := completed + [requests[offset]];
        marks, offset := marks + [false], offset + 1;
      }
      call := call + 1;
    }
    assert marks + [] == marks;
  }
}
