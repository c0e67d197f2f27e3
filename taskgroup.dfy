/**
 * The dispatch of row extraction and the pre-sized result slice, run in
 * dispatch order: each dispatched unit of work either fails or yields a value;
 * the group reports the first failure (errgroup.Wait); every value is stored
 * in the slot given by its own position (`songs[position - 1] = song`).
 */
module TaskGroup {
  import opened Results

  /** What one callback leads to: nothing dispatched, or a unit of work that failed or produced a value. */
  datatype Outcome<T, E> = Skipped | Failed(error: E) | Done(value: T)

  /** errgroup.Wait, sequentially: the error of the first unit that failed, or None. */
  function FirstFailure<T, E>(outs: seq<Outcome<T, E>>): Option<E>
  {
    if outs == [] then None
    else
      var earlier := FirstFailure(outs[..|outs| - 1]);
      if earlier.Some? then earlier
      else match outs[|outs| - 1]
        case Failed(e) => Some(e)
        case _ => None
  }

  /** The group fails exactly when some unit fails. */
  lemma {:induction false} NoFailure<T, E>(outs: seq<Outcome<T, E>>)
    ensures FirstFailure(outs) == None <==> forall k :: 0 <= k < |outs| ==> !outs[k].Failed?
  {
    if outs != [] {
      var init := outs[..|outs| - 1];
      NoFailure(init);
      assert forall k :: 0 <= k < |init| ==> init[k] == outs[k];
    }
  }

  /** The error reported is that of the first unit, in dispatch order, that failed. */
  lemma {:induction false} FirstFailureIsFirst<T, E>(outs: seq<Outcome<T, E>>, k: int)
    requires 0 <= k < |outs| && outs[k].Failed?
    requires forall j :: 0 <= j < k ==> !outs[j].Failed?
    ensures FirstFailure(outs) == Some(outs[k].error)
  {
    var init := outs[..|outs| - 1];
    assert forall j :: 0 <= j < |init| ==> init[j] == outs[j];
    if k == |outs| - 1 {
      NoFailure(init);
    } else {
      FirstFailureIsFirst(init, k);
    }
  }

  /** The values of the units that succeeded, in dispatch order. */
  function Successes<T, E>(outs: seq<Outcome<T, E>>): seq<T>
  {
    if outs == [] then []
    else
      var last := outs[|outs| - 1];
      Successes(outs[..|outs| - 1]) + if last.Done? then [last.value] else []
  }

  lemma {:induction false} AppendOutcomes<T, E>(a: seq<Outcome<T, E>>, b: seq<Outcome<T, E>>)
    ensures FirstFailure(a + b) == if FirstFailure(a).Some? then FirstFailure(a) else FirstFailure(b)
    ensures Successes(a + b) == Successes(a) + Successes(b)
    decreases |b|
  {
    if b == [] {
      assert a + b == a;
    } else {
      var b' := b[..|b| - 1];
      assert (a + b)[..|a + b| - 1] == a + b';
      assert (a + b)[|a + b| - 1] == b[|b| - 1];
      AppendOutcomes(a, b');
    }
  }

  /** A row that dispatches nothing changes neither the reported error nor the stored values. */
  lemma SkippedIgnored<T, E>(outs: seq<Outcome<T, E>>, k: int)
    requires 0 <= k < |outs| && outs[k].Skipped?
    ensures FirstFailure(outs) == FirstFailure(outs[..k] + outs[k + 1..])
    ensures Successes(outs) == Successes(outs[..k] + outs[k + 1..])
  {
    var a, skip, c := outs[..k], [outs[k]], outs[k + 1..];
    assert outs == (a + skip) + c;
    assert FirstFailure(skip) == None && Successes(skip) == [] by {
      assert skip[..0] == [];
    }
    AppendOutcomes(a, skip);
    assert FirstFailure(a + skip) == FirstFailure(a);
    assert Successes(a + skip) == Successes(a);
    AppendOutcomes(a + skip, c);
    AppendOutcomes(a, c);
  }

  /** The value of every unit that succeeded is among the stored values. */
  lemma SuccessesMember<T, E>(outs: seq<Outcome<T, E>>, k: int)
    requires 0 <= k < |outs| && outs[k].Done?
    ensures outs[k].value in Successes(outs)
  {
    var a, one, c := outs[..k], [outs[k]], outs[k + 1..];
    assert outs == (a + one) + c;
    assert Successes(one) == [outs[k].value] by {
      assert one[..0] == [];
    }
    AppendOutcomes(a, one);
    AppendOutcomes(a + one, c);
  }

  /** One more unit: the first failure stays if there was one, and a value is appended if the unit yields one. */
  lemma ExtendOutcomes<T, E>(outs: seq<Outcome<T, E>>, i: int)
    requires 0 <= i < |outs|
    ensures FirstFailure(outs[..i + 1]) ==
      if FirstFailure(outs[..i]).Some? then FirstFailure(outs[..i])
      else if outs[i].Failed? then Some(outs[i].error) else None
    ensures Successes(outs[..i + 1]) == Successes(outs[..i]) + if outs[i].Done? then [outs[i].value] else []
  {
    assert outs[..i + 1][..i] == outs[..i];
  }

  /** The values stored by a prefix of the units are a prefix of all values stored. */
  lemma {:induction false} SuccessesPrefix<T, E>(outs: seq<Outcome<T, E>>, i: int)
    requires 0 <= i <= |outs|
    ensures Successes(outs[..i]) <= Successes(outs)
  {
    assert outs == outs[..i] + outs[i..];
    AppendOutcomes(outs[..i], outs[i..]);
  }

  /** Every value has a position in [1, n], so that slot `position - 1` of a slice of length n exists. */
  predicate Fits<T>(vals: seq<T>, n: nat, pos: T -> int) {
    forall k :: 0 <= k < |vals| ==> 1 <= pos(vals[k]) <= n
  }

  /**
   * A slice of `n` empty slots after storing each value, in order, at index
   * `pos(value) - 1`. Every filled slot holds a value whose position is its
   * index plus one.
   */
  function Placed<T>(n: nat, vals: seq<T>, pos: T -> int): (slots: seq<Option<T>>)
    requires Fits(vals, n, pos)
    ensures |slots| == n
    ensures forall i :: 0 <= i < n && slots[i].Some? ==> pos(slots[i].value) == i + 1
    decreases |vals|
  {
    if vals == [] then seq(n, _ => None)
    else
      var v := vals[|vals| - 1];
      Placed(n, vals[..|vals| - 1], pos)[pos(v) - 1 := Some(v)]
  }

  /** Storing one more value updates exactly the slot of its position. */
  lemma PlacedAppend<T>(n: nat, vals: seq<T>, v: T, pos: T -> int)
    requires Fits(vals + [v], n, pos)
    ensures Fits(vals, n, pos) && 1 <= pos(v) <= n
    ensures Placed(n, vals + [v], pos) == Placed(n, vals, pos)[pos(v) - 1 := Some(v)]
  {
    assert forall k :: 0 <= k < |vals| ==> vals[k] == (vals + [v])[k];
    assert (vals + [v])[|vals|] == v;
    assert (vals + [v])[..|vals|] == vals;
  }

  /** Values that fit still fit after dropping later ones. */
  lemma FitsPrefix<T>(vals: seq<T>, prefix: seq<T>, n: nat, pos: T -> int)
    requires Fits(vals, n, pos) && prefix <= vals
    ensures Fits(prefix, n, pos)
  {
    assert forall k :: 0 <= k < |prefix| ==> prefix[k] == vals[k];
  }

  /**
   * One more unit of work, for a loop that keeps the first failure and the
   * values stored so far: the failure is kept or taken from the unit, a value
   * the unit yields is appended, and what is stored still fits.
   */
  lemma Step<T, E>(n: nat, outs: seq<Outcome<T, E>>, i: int, pos: T -> int)
    requires 0 <= i < |outs| && Fits(Successes(outs), n, pos)
    ensures Fits(Successes(outs[..i]), n, pos) && Fits(Successes(outs[..i + 1]), n, pos)
    ensures FirstFailure(outs[..i + 1]) ==
      if FirstFailure(outs[..i]).Some? then FirstFailure(outs[..i])
      else if outs[i].Failed? then Some(outs[i].error) else None
    ensures Successes(outs[..i + 1]) ==
      if outs[i].Done? then Successes(outs[..i]) + [outs[i].value] else Successes(outs[..i])
    ensures outs[i].Done? ==> 1 <= pos(outs[i].value) <= n
  {
    ExtendOutcomes(outs, i);
    SuccessesPrefix(outs, i + 1);
    SuccessesPrefix(outs, i);
    FitsPrefix(Successes(outs), Successes(outs[..i + 1]), n, pos);
    FitsPrefix(Successes(outs), Successes(outs[..i]), n, pos);
    if outs[i].Done? {
      assert Successes(outs[..i + 1])[|Successes(outs[..i])|] == outs[i].value;
    } else {
      assert Successes(outs[..i + 1]) == Successes(outs[..i]) + [];
    }
  }

  /** The store `slots[pos(v) - 1] = v`: the array afterwards holds the slots with one more value placed. */
  method Store<T>(slots: array<Option<T>>, v: T, pos: T -> int, ghost n: nat, ghost vals: seq<T>)
    requires Fits(vals, n, pos) && 1 <= pos(v) <= n && slots.Length == n
    requires slots[..] == Placed(n, vals, pos)
    modifies slots
    ensures Fits(vals + [v], n, pos) && slots[..] == Placed(n, vals + [v], pos)
  {
    assert forall k :: 0 <= k < |vals| ==> (vals + [v])[k] == vals[k];
    assert (vals + [v])[|vals|] == v;
    PlacedAppend(n, vals, v, pos);
    slots[pos(v) - 1] := Some(v);
  }

  /** Some value has position `p`. */
  predicate HasPosition<T>(vals: seq<T>, pos: T -> int, p: int) {
    exists k :: 0 <= k < |vals| && pos(vals[k]) == p
  }

  /** A slot is filled exactly when some value has that slot's position. */
  lemma {:induction false} PlacedSlot<T>(n: nat, vals: seq<T>, pos: T -> int, i: int)
    requires Fits(vals, n, pos) && 0 <= i < n
    ensures Placed(n, vals, pos)[i].Some? <==> HasPosition(vals, pos, i + 1)
    decreases |vals|
  {
    if vals != [] {
      var init := vals[..|vals| - 1];
      PlacedSlot(n, init, pos, i);
      assert forall k :: 0 <= k < |init| ==> init[k] == vals[k];
      if pos(vals[|vals| - 1]) == i + 1 {
        assert Placed(n, vals, pos)[i].Some?;
      } else if exists k :: 0 <= k < |vals| && pos(vals[k]) == i + 1 {
        var k :| 0 <= k < |vals| && pos(vals[k]) == i + 1;
        assert k < |init| && pos(init[k]) == i + 1;
      }
    }
  }

  /** Of several values with the same position, the slot keeps the last one stored. */
  lemma {:induction false} PlacedLastWriter<T>(n: nat, vals: seq<T>, pos: T -> int, k: int)
    requires Fits(vals, n, pos) && 0 <= k < |vals|
    requires forall j :: k < j < |vals| ==> pos(vals[j]) != pos(vals[k])
    ensures Placed(n, vals, pos)[pos(vals[k]) - 1] == Some(vals[k])
    decreases |vals|
  {
    if k < |vals| - 1 {
      var init := vals[..|vals| - 1];
      assert forall j :: 0 <= j < |init| ==> init[j] == vals[j];
      PlacedLastWriter(n, init, pos, k);
    }
  }

  /** Every slot is filled exactly when every position from 1 to n is the position of some value. */
  lemma PlacedFull<T>(n: nat, vals: seq<T>, pos: T -> int)
    requires Fits(vals, n, pos)
    ensures (forall i :: 0 <= i < n ==> Placed(n, vals, pos)[i].Some?) <==>
            (forall p :: 1 <= p <= n ==> HasPosition(vals, pos, p))
  {
    var slots := Placed(n, vals, pos);
    forall i | 0 <= i < n
      ensures slots[i].Some? <==> HasPosition(vals, pos, i + 1)
    {
      PlacedSlot(n, vals, pos, i);
    }
    if forall p :: 1 <= p <= n ==> HasPosition(vals, pos, p) {
      forall i | 0 <= i < n ensures slots[i].Some? {
        assert HasPosition(vals, pos, i + 1);
      }
    } else {
      var p :| 1 <= p <= n && !HasPosition(vals, pos, p);
      assert 0 <= p - 1 < n && !Placed(n, vals, pos)[p - 1].Some?;
      assert !(forall i :: 0 <= i < n ==> Placed(n, vals, pos)[i].Some?);
      assert !(forall q :: 1 <= q <= n ==> HasPosition(vals, pos, q));
    }
  }

  /** The position of every unit that succeeded is a filled slot, holding a value of that position. */
  lemma DoneSlotFilled<T, E>(n: nat, outs: seq<Outcome<T, E>>, pos: T -> int, k: int)
    requires Fits(Successes(outs), n, pos) && 0 <= k < |outs| && outs[k].Done?
    ensures 1 <= pos(outs[k].value) <= n
    ensures var slot := Placed(n, Successes(outs), pos)[pos(outs[k].value) - 1];
      slot.Some? && pos(slot.value) == pos(outs[k].value)
  {
    var v, vals := outs[k].value, Successes(outs);
    SuccessesMember(outs, k);
    var j :| 0 <= j < |vals| && vals[j] == v;
    PlacedSlot(n, vals, pos, pos(v) - 1);
  }
}
