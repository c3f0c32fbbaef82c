/** The message envelope shared by both game engines (the core service's protobuf
    messages), the fault type that stands for a panic of the engine, and the facts
    about enumerating a HashMap's keys that both engines need. */
module Provider {

  /** A user id. The source keeps user ids as u32 and casts them with `as i32` to
      address messages; ids are taken below 2^31 so that this cast is the identity. */
  type UserId = u: int | 0 <= u < 0x8000_0000

  /** The outcome of an engine operation: a value, or the reason the source panics. */
  datatype Result<T> = Ok(value: T) | Fault(fault: Fault)

  /** Why the source would panic (or, for NeverTerminates, hang). */
  datatype Fault =
    | RegisterRejected  // assert_eq! on the error code of the registration acknowledgement
    | RoomExists        // assert! that a new room id is not yet in use
    | MissingKey        // unwrap() of a HashMap lookup (room or user) that found nothing
    | MissingField      // unwrap() of a protobuf field or oneof that was left unset
    | IndexOutOfRange   // indexing, remove or split_off past the end of a Vec
    | EmptyPile         // pop()/pop_front().unwrap() on an empty deck
    | AssertionFailed   // any other assert!/assert_eq! of the engine
    | EmptyRange        // gen_range over an empty range
    | CapacityOverflow  // Vec::with_capacity of a negative i32 cast to usize
    | NeverTerminates   // a `loop` that can never reach its `break`

  /** The error code carried by the registration acknowledgement. */
  datatype ErrorNumber = NoError | OtherError(code: int)

  datatype RegisterRet = RegisterRet(err: ErrorNumber)

  /** Outbound envelope. `userId` addresses a NotifyMsgArgs: a positive id sends to that
      user only, 0 broadcasts to the whole room, and -id broadcasts to everybody in the
      room except id. The payload type `N` is the engine's own NotifyMsg. */
  datatype ProviderMsg<N> =
    | NotifyMsgArgs(roomId: int, userId: int, custom: N)
    | CloseGameArgs(roomId: int)

  /** Inbound requests, with their `custom` payload already unpacked. */
  datatype StartGameArgs<S> = StartGameArgs(roomId: int, userId: seq<UserId>, custom: S)
  datatype UserOperationArgs<O> = UserOperationArgs(roomId: int, userId: UserId, custom: O)
  datatype QueryStateArgs = QueryStateArgs(roomId: int, userId: UserId)

  /** `order` lists every key of a HashMap once: one possible iteration order. */
  predicate IsOrderOf(order: seq<int>, keys: set<int>)
  {
    && (forall i, j :: 0 <= i < j < |order| ==> order[i] != order[j])
    && (forall k :: k in keys ==> k in order)
    && (forall i :: 0 <= i < |order| ==> order[i] in keys)
  }

  /** Every finite key set has an iteration order, of the set's size. */
  lemma {:induction false} OrderExists(keys: set<int>)
    ensures exists order :: IsOrderOf(order, keys) && |order| == |keys|
  {
    if |keys| == 0 {
      assert keys == {};
      assert IsOrderOf([], keys);
    } else {
      assert exists k :: k in keys by {
        if forall k :: k !in keys {
          assert false;  // the set would be empty
        }
      }
      var k :| k in keys;
      OrderExists(keys - {k});
      var rest :| IsOrderOf(rest, keys - {k}) && |rest| == |keys - {k}|;
      var order := [k] + rest;
      assert forall i :: 1 <= i < |order| ==> order[i] == rest[i - 1];
      assert IsOrderOf(order, keys);
    }
  }

  /** An iteration order lists each key exactly once. */
  lemma OrderSize(order: seq<int>, keys: set<int>)
    requires IsOrderOf(order, keys)
    ensures |order| == |keys|
  {
    OrderExists(keys);
    var other :| IsOrderOf(other, keys) && |other| == |keys|;
    assert multiset(order) == multiset(other) by {
      forall k
        ensures multiset(order)[k] == multiset(other)[k]
      {
        DistinctCount(order, k);
        DistinctCount(other, k);
      }
    }
    assert |order| == |multiset(order)| == |multiset(other)| == |other|;
  }

  /** In a list without repeats every value occurs at most once. */
  lemma {:induction false} DistinctCount(s: seq<int>, k: int)
    requires forall i, j :: 0 <= i < j < |s| ==> s[i] != s[j]
    ensures multiset(s)[k] == if k in s then 1 else 0
  {
    if s != [] {
      var rest := s[..|s| - 1];
      DistinctCount(rest, k);
      assert s == rest + [s[|s| - 1]];
      assert k in s <==> k in rest || k == s[|s| - 1];
    }
  }
}
