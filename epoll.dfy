/**
 * The event classification of the server's epoll wrapper
 * (uio-server/src/epoll.rs, `Epoll::poll`).
 *
 * The kernel fills an array of at most eight `(flags, u64)` events; `poll` walks
 * the filled prefix in order, converts each event's 64-bit data back into the
 * caller's key type (a conversion that may fail, which panics), and turns the
 * flags into at most one `Message` per event.
 *
 * The source tests `EPOLLIN` three times, so its `Broken` and `Hup` branches can
 * never be taken (ClassifyAsWritten); the documented intent, where an error
 * condition yields `Broken` and a hang-up without error yields `Hup`, is Classify,
 * which the rest of the model uses.
 */
module Epoll {
  import opened Wrappers
  import opened SeqLemmas

  /** The kernel's `epoll_data` viewed as `u64`. */
  type U64 = x: int | 0 <= x < 0x1_0000_0000_0000_0000

  /** Event bits, with their Linux values. */
  const EPOLLIN: bv32 := 0x001
  const EPOLLERR: bv32 := 0x008
  const EPOLLHUP: bv32 := 0x010

  /** Capacity of the event array handed to `epoll_wait`. */
  const BufferLen: nat := 8

  datatype RawEvent = RawEvent(events: bv32, data: U64)

  datatype Message<K> =
    | Ready(key: K)   // EPOLLIN
    | Broken(key: K)  // EPOLLERR
    | Hup(key: K)     // EPOLLHUP without EPOLLERR

  predicate Has(flags: bv32, bit: bv32) {
    flags & bit != 0
  }

  /**
   * The intended classification: the first matching test wins, as the `continue`
   * after each push makes it.
   */
  function Classify<K>(flags: bv32, key: K): (m: Option<Message<K>>)
    ensures m.Some? ==> m.value.key == key
    ensures m.Some? && m.value.Ready? <==> Has(flags, EPOLLIN)
    ensures m.Some? && m.value.Broken? <==> !Has(flags, EPOLLIN) && Has(flags, EPOLLERR)
    ensures m.Some? && m.value.Hup? <==> !Has(flags, EPOLLIN) && !Has(flags, EPOLLERR) && Has(flags, EPOLLHUP)
  {
    if Has(flags, EPOLLIN) then Some(Ready(key))
    else if Has(flags, EPOLLERR) then Some(Broken(key))
    else if Has(flags, EPOLLHUP) then Some(Hup(key))
    else None
  }

  /** The classification as written: every branch re-tests `EPOLLIN`. */
  function ClassifyAsWritten<K>(flags: bv32, key: K): (m: Option<Message<K>>)
    ensures m.Some? ==> m.value.Ready? && m.value.key == key
  {
    if Has(flags, EPOLLIN) then Some(Ready(key))
    else if Has(flags, EPOLLIN) then Some(Broken(key))
    else if Has(flags, EPOLLIN) then Some(Hup(key))
    else None
  }

  /**
   * As written, only `Ready` is ever produced, exactly for events with `EPOLLIN`;
   * it agrees with the intended classification there and nowhere the intent
   * reports an error or a hang-up.
   */
  lemma AsWrittenOnlyReady<K>(flags: bv32, key: K)
    ensures var m := ClassifyAsWritten(flags, key);
            (m.Some? <==> Has(flags, EPOLLIN)) && (m.Some? ==> m.value.Ready?)
    ensures ClassifyAsWritten(flags, key) == Classify(flags, key)
            <==> Has(flags, EPOLLIN) || !(Has(flags, EPOLLERR) || Has(flags, EPOLLHUP))
  {
  }

  /** An error event and a hang-up event vanish as written but are reported as intended. */
  lemma UnreachableBranchWitness()
    ensures ClassifyAsWritten(EPOLLERR, 7) == None && Classify(EPOLLERR, 7) == Some(Broken(7))
    ensures ClassifyAsWritten(EPOLLHUP, 7) == None && Classify(EPOLLHUP, 7) == Some(Hup(7))
    ensures ClassifyAsWritten(EPOLLERR | EPOLLHUP, 7) == None
    ensures Classify(EPOLLERR | EPOLLHUP, 7) == Some(Broken(7))
  {
    assert EPOLLERR & EPOLLIN == 0 && EPOLLERR & EPOLLERR != 0;
    assert EPOLLHUP & EPOLLIN == 0 && EPOLLHUP & EPOLLERR == 0 && EPOLLHUP & EPOLLHUP != 0;
    assert (EPOLLERR | EPOLLHUP) & EPOLLIN == 0 && (EPOLLERR | EPOLLHUP) & EPOLLERR != 0;
  }

  function Messages<K>(m: Option<Message<K>>): (ms: seq<Message<K>>)
    ensures |ms| <= 1
  {
    if m.Some? then [m.value] else []
  }

  /**
   * The messages of the events `evs`, in order, or None when the data of one of
   * them does not convert back to a key (a panic). Defined over the last event,
   * the way the loop extends its result.
   */
  function PollSpec<K>(evs: seq<RawEvent>, toKey: U64 -> Option<K>): (r: Option<seq<Message<K>>>)
    ensures r.Some? ==> |r.value| <= |evs|
  {
    if evs == [] then Some([])
    else
      var prev := PollSpec(evs[..|evs| - 1], toKey);
      var e := evs[|evs| - 1];
      var key := toKey(e.data);
      if prev.None? || key.None? then None
      else Some(prev.value + Messages(Classify(e.events, key.value)))
  }

  /** A single event: its key conversion, then its classification. */
  lemma PollOne<K>(e: RawEvent, toKey: U64 -> Option<K>)
    ensures PollSpec([e], toKey)
            == if toKey(e.data).None? then None else Some(Messages(Classify(e.events, toKey(e.data).value)))
  {
    assert [e][..0] == [];
    if toKey(e.data).Some? {
      EmptyUnit(Messages(Classify(e.events, toKey(e.data).value)));
    }
  }

  /** One more event of the array: the step the loop of `poll` takes. */
  lemma PollSnoc<K>(evs: seq<RawEvent>, i: nat, toKey: U64 -> Option<K>)
    requires i < |evs|
    ensures PollSpec(evs[..i + 1], toKey)
            == if PollSpec(evs[..i], toKey).None? || toKey(evs[i].data).None? then None
               else Some(PollSpec(evs[..i], toKey).value + Messages(Classify(evs[i].events, toKey(evs[i].data).value)))
  {
    assert evs[..i + 1][..i] == evs[..i];
  }

  /**
   * Events are handled one after the other: the messages of `a + b` are those of
   * `a` followed by those of `b`, and a conversion failure in either panics.
   */
  lemma {:induction false} PollAppend<K>(a: seq<RawEvent>, b: seq<RawEvent>, toKey: U64 -> Option<K>)
    decreases |b|
    ensures PollSpec(a + b, toKey)
            == if PollSpec(a, toKey).None? || PollSpec(b, toKey).None? then None
               else Some(PollSpec(a, toKey).value + PollSpec(b, toKey).value)
  {
    if b == [] {
      EmptyUnit(a);
      if PollSpec(a, toKey).Some? {
        EmptyUnit(PollSpec(a, toKey).value);
      }
    } else {
      var b' := b[..|b| - 1];
      var e := b[|b| - 1];
      PollAppend(a, b', toKey);
      assert (a + b)[..|a + b| - 1] == a + b';
      assert (a + b)[|a + b| - 1] == e;
      var pa, pb := PollSpec(a, toKey), PollSpec(b', toKey);
      if pa.Some? && pb.Some? && toKey(e.data).Some? {
        Assoc(pa.value, pb.value, Messages(Classify(e.events, toKey(e.data).value)));
      }
    }
  }

  /** `poll` panics exactly when some event's data is not a valid key. */
  lemma {:induction false} PollPanicIff<K>(evs: seq<RawEvent>, toKey: U64 -> Option<K>)
    ensures PollSpec(evs, toKey).None? <==> exists i :: 0 <= i < |evs| && toKey(evs[i].data).None?
  {
    if evs != [] {
      var prefix := evs[..|evs| - 1];
      PollPanicIff(prefix, toKey);
      if exists i :: 0 <= i < |prefix| && toKey(prefix[i].data).None? {
        var i :| 0 <= i < |prefix| && toKey(prefix[i].data).None?;
        assert evs[i] == prefix[i];
      }
      if exists i :: 0 <= i < |evs| && toKey(evs[i].data).None? {
        var i :| 0 <= i < |evs| && toKey(evs[i].data).None?;
        if i < |prefix| {
          assert prefix[i] == evs[i];
        }
      }
    }
  }

  datatype PollResult<K> =
    | Polled(messages: seq<Message<K>>)
    | WaitFailed      // epoll_wait reported an error
    | KeyPanic        // an event's data did not convert back to a key

  /**
   * The classification loop of `poll` over the array the kernel filled:
   * `numEvents` is what `epoll_wait` returned, never more than the array holds.
   */
  method Poll<K>(eventList: array<RawEvent>, numEvents: int, toKey: U64 -> Option<K>)
    returns (r: PollResult<K>)
    requires eventList.Length == BufferLen && numEvents <= BufferLen
    ensures r.WaitFailed? <==> numEvents < 0
    ensures r.KeyPanic? <==> 0 <= numEvents && exists i :: 0 <= i < numEvents && toKey(eventList[i].data).None?
    ensures r.Polled? ==> PollSpec(eventList[..numEvents], toKey) == Some(r.messages)
    ensures r.Polled? ==> |r.messages| <= numEvents <= BufferLen
  {
    if numEvents < 0 {
      return WaitFailed;
    }
    var result: seq<Message<K>> := [];
    for i := 0 to numEvents
      invariant PollSpec(eventList[..i], toKey) == Some(result)
    {
      var event := eventList[i];
      var flags := event.events;
      var key := toKey(event.data);
      PollSnoc(eventList[..], i, toKey);
      assert eventList[..][..i + 1] == eventList[..i + 1] && eventList[..][..i] == eventList[..i];
      if key.None? {
        PollPanicIff(eventList[..numEvents], toKey);
        assert eventList[..numEvents][i] == eventList[i];
        return KeyPanic;
      }
      if flags & EPOLLIN != 0 {
        result := result + [Ready(key.value)];
        continue;
      }
      if flags & EPOLLERR != 0 {
        result := result + [Broken(key.value)];
        continue;
      }
      if flags & EPOLLHUP != 0 {
        result := result + [Hup(key.value)];
        continue;
      }
      assert result + [] == result;
    }
    PollPanicIff(eventList[..numEvents], toKey);
    r := Polled(result);
  }
}
