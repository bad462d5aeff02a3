/** Constants and small datatypes shared by every part of the kernel model. */
module Base {

  datatype Option<+T> = None | Some(value: T)

  /** Index of a task control block in the static pool. */
  type Tid = nat

  const MAX_TASKS: nat := 8
  const MAX_TASK_PRIORITIES: nat := 8
  const MAX_TASK_STACK_SIZE: nat := 512
  const KWORK_QUEUE_SIZE: nat := MAX_TASKS * 2

  /** 2^32: size_t, pointers and register values are 32 bits wide. */
  const TWO_32: nat := 0x1_0000_0000
  type Word = w: nat | w < TWO_32

  const WAIT_FOREVER: nat := 0xFFFF_FFFF

  /** (uint32_t)-1, the failure result; KOBJ_INVALID is the same number. */
  const FAIL: nat := 0xFFFF_FFFF

  /** The sizes with which a new queue gets a buffer for all its items: no size computation wraps, malloc's rounding
    * included. */
  predicate Buildable(itemSize: nat, capacity: nat) {
    itemSize > 0 && capacity > 0 && itemSize * (capacity + 1) <= TWO_32 - 16
  }

  ghost predicate NoDuplicates<T(!new)>(s: seq<T>) {
    forall i, j :: 0 <= i < j < |s| ==> s[i] != s[j]
  }

  /** The elements of a list that are not in `gone`, in their order. */
  function Without(s: seq<Tid>, gone: set<Tid>): (r: seq<Tid>)
    ensures forall t :: t in r <==> t in s && t !in gone
  {
    if s == [] then []
    else if s[0] in gone then Without(s[1..], gone)
    else [s[0]] + Without(s[1..], gone)
  }

  lemma {:induction false} WithoutNoDuplicates(s: seq<Tid>, gone: set<Tid>)
    requires NoDuplicates(s)
    ensures NoDuplicates(Without(s, gone))
  {
    if s != [] {
      WithoutNoDuplicates(s[1..], gone);
    }
  }

  lemma {:induction false} WithoutNone(s: seq<Tid>, gone: set<Tid>)
    requires forall t :: t in s ==> t !in gone
    ensures Without(s, gone) == s
  {
    if s != [] {
      WithoutNone(s[1..], gone);
    }
  }
}
