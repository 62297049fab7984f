/**
 * The snapshot / call / restore-on-error wrapper `process_instruction`
 * (program/fuzz/src/lib.rs).
 *
 * Account buffers live in a memory `mem`; the account list is a sequence of
 * handles into it, so two entries of the list may name the same buffer. The
 * processor is any function from the memory and the handles to a result and
 * a new memory. The host gives each account a fixed-size slice, so a
 * processor cannot change the number of buffers or their lengths.
 */
module Rollback {
  import opened Results
  import opened Bytes
  import opened Errors
  import opened Accounts
  import Decefi

  type Memory = seq<seq<Byte>>

  /** What a processor call returns: its result and the memory it leaves. */
  datatype Call = Call(result: Decefi.DecefiResult, mem: Memory)

  type Processor = (Memory, seq<nat>) -> Call

  /** Every account entry names a buffer of the memory. */
  predicate ValidHandles(mem: Memory, handles: seq<nat>)
  {
    forall i :: 0 <= i < |handles| ==> handles[i] < |mem|
  }

  /** Same number of buffers, each of the same length. */
  predicate SameShape(a: Memory, b: Memory)
  {
    |a| == |b| && forall k :: 0 <= k < |a| ==> |a[k]| == |b[k]|
  }

  /** Entries that name the same buffer hold the same snapshot. */
  predicate AgreeOnAliases(handles: seq<nat>, snap: seq<seq<Byte>>)
    requires |snap| == |handles|
  {
    forall i, j :: 0 <= i < |handles| && 0 <= j < |handles| && handles[i] == handles[j] ==> snap[i] == snap[j]
  }

  /**
   * The copies `account.try_borrow_data().to_vec()` of every account, in
   * list order. All are taken from the same memory, before the processor runs.
   */
  function Snapshot(mem: Memory, handles: seq<nat>): (snap: seq<seq<Byte>>)
    requires ValidHandles(mem, handles)
    ensures |snap| == |handles|
    ensures forall i :: 0 <= i < |handles| ==> snap[i] == mem[handles[i]]
    ensures AgreeOnAliases(handles, snap)
  {
    if |handles| == 0 then [] else [mem[handles[0]]] + Snapshot(mem, handles[1..])
  }

  /**
   * The restore loop: for each account and its snapshot, in list order,
   * `copy_from_slice` overwrites the buffer. `copy_from_slice` demands equal
   * lengths.
   */
  function Restore(mem: Memory, handles: seq<nat>, snap: seq<seq<Byte>>): (r: Memory)
    requires ValidHandles(mem, handles)
    requires |snap| == |handles|
    requires forall i :: 0 <= i < |handles| ==> |snap[i]| == |mem[handles[i]]|
    requires AgreeOnAliases(handles, snap)
    ensures SameShape(mem, r)
    ensures forall i :: 0 <= i < |handles| ==> r[handles[i]] == snap[i]
    ensures forall b :: 0 <= b < |mem| && b !in handles ==> r[b] == mem[b]
    decreases |handles|
  {
    if |handles| == 0 then mem
    else
      var mem' := mem[handles[0] := snap[0]];
      var r := Restore(mem', handles[1..], snap[1..]);
      assert forall i :: 0 < i < |handles| ==> r[handles[i]] == snap[i] by {
        forall i | 0 < i < |handles| ensures r[handles[i]] == snap[i] {
          assert handles[1..][i - 1] == handles[i];
        }
      }
      assert r[handles[0]] == snap[0] by {
        if handles[0] in handles[1..] {
          var j :| 0 <= j < |handles[1..]| && handles[1..][j] == handles[0];
          assert handles[j + 1] == handles[0];
        }
      }
      r
  }

  /**
   * `process_instruction`: snapshot every account, call the processor, and if
   * it failed copy every snapshot back; return the processor's result.
   */
  function ProcessInstruction(process: Processor, mem: Memory, handles: seq<nat>): (r: Call)
    requires ValidHandles(mem, handles)
    requires SameShape(mem, process(mem, handles).mem)
    ensures SameShape(mem, r.mem)
    ensures r.result == process(mem, handles).result
    ensures r.result.Ok? ==> r.mem == process(mem, handles).mem
    ensures r.result.Err? ==> forall i :: 0 <= i < |handles| ==> r.mem[handles[i]] == mem[handles[i]]
    ensures r.result.Err? ==> forall b :: 0 <= b < |mem| && b !in handles ==> r.mem[b] == process(mem, handles).mem[b]
  {
    var snap := Snapshot(mem, handles);
    var call := process(mem, handles);
    if call.result.Err? then Call(call.result, Restore(call.mem, handles, snap)) else call
  }

  /**
   * A processor that fails after overwriting a buffer named twice in the
   * account list: the wrapper restores that buffer to its original bytes.
   */
  lemma AliasedRollback()
    ensures ProcessInstruction(
      (m: Memory, h: seq<nat>) => Call(Err(ErrorCode(InvalidAmount)), [[9, 9, 9], [4]]),
      [[1, 2, 3], [4]], [0, 0]).mem == [[1, 2, 3], [4]]
  {
    var p := (m: Memory, h: seq<nat>) => Call(Err(ErrorCode(InvalidAmount)), [[9, 9, 9], [4]]);
    var r := ProcessInstruction(p, [[1, 2, 3], [4]], [0, 0]);
    assert r.mem[0] == [1, 2, 3];
    assert 1 !in [0, 0];
    assert r.mem[1] == [4];
  }

  /** The account buffers as the dispatcher sees them, in list order. */
  function AccountData(mem: Memory, handles: seq<nat>): (views: seq<seq<Byte>>)
    requires ValidHandles(mem, handles)
    ensures |views| == |handles|
    ensures forall i :: 0 <= i < |handles| ==> views[i] == mem[handles[i]]
  {
    seq(|handles|, i requires 0 <= i < |handles| => mem[handles[i]])
  }

  /**
   * `Decefi::process` as a processor: it reads the buffers but never writes
   * them. Handles outside the memory read as empty buffers; `ValidHandles`
   * rules them out wherever the processor is used.
   */
  function DecefiProcessor(deserialize: seq<Byte> -> Option<Account>, input: seq<Byte>): (p: Processor)
    ensures forall m, h :: p(m, h).mem == m
    ensures forall m, h :: ValidHandles(m, h) ==>
      p(m, h).result == Decefi.Process(deserialize, AccountData(m, h), input).result
  {
    (m: Memory, h: seq<nat>) =>
      Call(Decefi.Process(deserialize, seq(|h|, i requires 0 <= i < |h| => if h[i] < |m| then m[h[i]] else []), input).result, m)
  }

  /**
   * Wrapping the dispatcher: whatever the instruction and whatever the
   * outcome, every buffer ends as it began, and the dispatcher's result is
   * returned unchanged.
   */
  lemma DecefiLeavesBuffersUnchanged(deserialize: seq<Byte> -> Option<Account>, input: seq<Byte>, mem: Memory, handles: seq<nat>)
    requires ValidHandles(mem, handles)
    ensures ProcessInstruction(DecefiProcessor(deserialize, input), mem, handles)
         == Call(Decefi.Process(deserialize, AccountData(mem, handles), input).result, mem)
  {
    var views := seq(|handles|, i requires 0 <= i < |handles| => if handles[i] < |mem| then mem[handles[i]] else []);
    assert views == AccountData(mem, handles);
    var r := ProcessInstruction(DecefiProcessor(deserialize, input), mem, handles);
    if r.result.Err? {
      assert forall b :: 0 <= b < |mem| ==> r.mem[b] == mem[b] by {
        forall b | 0 <= b < |mem| ensures r.mem[b] == mem[b] {
          if b in handles {
            var i :| 0 <= i < |handles| && handles[i] == b;
          }
        }
      }
    }
  }
}
