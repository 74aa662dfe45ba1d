/**
 * The climb collection: insert-or-replace by id, delete by id, the local
 * storage slot and the published file it is loaded from, and the seeding
 * of an empty local collection (app.js, loadClimbsLocal, saveClimbsLocal,
 * loadClimbsPublished, ensureExampleIfEmptyLocal, the save and delete
 * handlers and boot).
 */
module Collection {
  import opened Wrappers
  import opened JsValues
  import opened Climbs

  // ---------- Lookup, upsert, delete ----------

  /** `findIndex` on id: the first position holding `id`, or -1. */
  function FindIndex(cs: seq<Climb>, id: string): (r: int)
    ensures -1 <= r < |cs|
    ensures r >= 0 ==> cs[r].id == id && forall j :: 0 <= j < r ==> cs[j].id != id
    ensures r == -1 <==> forall j :: 0 <= j < |cs| ==> cs[j].id != id
    decreases |cs|
  {
    if cs == [] then -1
    else if cs[0].id == id then 0
    else
      var k := FindIndex(cs[1..], id);
      if k < 0 then -1 else k + 1
  }

  predicate HasId(cs: seq<Climb>, id: string) {
    exists j :: 0 <= j < |cs| && cs[j].id == id
  }

  /**
   * Saving a record: it replaces the first record with the same id, or
   * is appended when there is none.
   */
  function Upsert(cs: seq<Climb>, c: Climb): (r: seq<Climb>)
    ensures HasId(cs, c.id) ==>
      |r| == |cs| &&
      exists k :: 0 <= k < |cs| && cs[k].id == c.id && (forall j :: 0 <= j < k ==> cs[j].id != c.id) && r == cs[k := c]
    ensures !HasId(cs, c.id) ==> r == cs + [c]
    ensures forall x :: x in r ==> x in cs || x == c
  {
    var i := FindIndex(cs, c.id);
    if i >= 0 then cs[i := c] else cs + [c]
  }

  /** After an upsert, looking the id up finds the saved record. */
  lemma UpsertThenFind(cs: seq<Climb>, c: Climb)
    ensures var r := Upsert(cs, c); var i := FindIndex(r, c.id); 0 <= i && r[i] == c
  {
    var r := Upsert(cs, c);
    var k := if HasId(cs, c.id) then FindIndex(cs, c.id) else |cs|;
    assert r[k] == c;
    assert forall j :: 0 <= j < k ==> r[j] == cs[j];
    assert FindIndex(r, c.id) == k;
  }

  /** `filter` on id: every record whose id differs, in order. */
  function Delete(cs: seq<Climb>, id: string): (r: seq<Climb>)
    ensures |r| <= |cs|
    ensures forall x :: x in r <==> x in cs && x.id != id
    decreases |cs|
  {
    if cs == [] then []
    else if cs[0].id == id then Delete(cs[1..], id)
    else [cs[0]] + Delete(cs[1..], id)
  }

  /** Deleting distributes over concatenation, so the survivors keep their order. */
  lemma {:induction false} DeleteAppend(a: seq<Climb>, b: seq<Climb>, id: string)
    ensures Delete(a + b, id) == Delete(a, id) + Delete(b, id)
    decreases |a|
  {
    if a == [] {
      assert a + b == b;
    } else {
      assert (a + b)[1..] == a[1..] + b;
      DeleteAppend(a[1..], b, id);
    }
  }

  /** Deleting an id no record has changes nothing. */
  lemma {:induction false} DeleteAbsent(cs: seq<Climb>, id: string)
    requires !HasId(cs, id)
    ensures Delete(cs, id) == cs
    decreases |cs|
  {
    if cs != [] {
      assert !HasId(cs[1..], id) by {
        forall j | 0 <= j < |cs| - 1 ensures cs[1..][j].id != id {
          assert cs[1..][j] == cs[j + 1];
        }
      }
      DeleteAbsent(cs[1..], id);
    }
  }

  /** Ids are unique within the collection. */
  predicate UniqueIds(cs: seq<Climb>) {
    forall i, j :: 0 <= i < j < |cs| ==> cs[i].id != cs[j].id
  }

  /** Upserting keeps ids unique. */
  lemma UpsertKeepsUnique(cs: seq<Climb>, c: Climb)
    requires UniqueIds(cs)
    ensures UniqueIds(Upsert(cs, c))
  {
    var r := Upsert(cs, c);
    if HasId(cs, c.id) {
      var k := FindIndex(cs, c.id);
      assert r == cs[k := c];
      forall i, j | 0 <= i < j < |r| ensures r[i].id != r[j].id {
        if i == k {
          assert r[i].id == cs[k].id;
        } else if j == k {
          assert r[j].id == cs[k].id;
        }
      }
    }
  }

  lemma UniqueTail(cs: seq<Climb>)
    requires cs != [] && UniqueIds(cs)
    ensures UniqueIds(cs[1..])
    ensures forall x :: x in cs[1..] ==> x.id != cs[0].id
  {
    var tail := cs[1..];
    forall i, j | 0 <= i < j < |tail| ensures tail[i].id != tail[j].id {
      assert tail[i] == cs[i + 1] && tail[j] == cs[j + 1];
    }
  }

  lemma UniqueCons(c: Climb, cs: seq<Climb>)
    requires UniqueIds(cs)
    requires forall x :: x in cs ==> x.id != c.id
    ensures UniqueIds([c] + cs)
  {
    var r := [c] + cs;
    forall i, j | 0 <= i < j < |r| ensures r[i].id != r[j].id {
      assert r[j] == cs[j - 1];
      if i > 0 {
        assert r[i] == cs[i - 1];
      }
    }
  }

  /** Deleting keeps ids unique. */
  lemma {:induction false} DeleteKeepsUnique(cs: seq<Climb>, id: string)
    requires UniqueIds(cs)
    ensures UniqueIds(Delete(cs, id))
    decreases |cs|
  {
    if cs != [] {
      UniqueTail(cs);
      DeleteKeepsUnique(cs[1..], id);
      if cs[0].id != id {
        UniqueCons(cs[0], Delete(cs[1..], id));
      }
    }
  }

  /** Every record is one normalisation leaves as it is. */
  predicate AllNormal(cs: seq<Climb>) {
    forall c :: c in cs ==> IsNormal(c)
  }

  /** Deleting keeps every surviving record normal. */
  lemma DeleteKeepsNormal(cs: seq<Climb>, id: string)
    requires AllNormal(cs)
    ensures AllNormal(Delete(cs, id))
  {
    forall c | c in Delete(cs, id) ensures IsNormal(c) {
      assert c in cs;
    }
  }

  // ---------- Loading and storing ----------

  /**
   * `normalizeClimb` applied to every element; `now` stands for the clock
   * reading of each call.
   */
  function NormalizeAll(items: seq<Value>, now: Timestamp): (r: seq<Climb>)
    ensures |r| == |items|
    ensures forall i :: 0 <= i < |items| ==> r[i] == Normalize(items[i], now)
    ensures AllNormal(r)
    decreases |items|
  {
    if items == [] then [] else [Normalize(items[0], now)] + NormalizeAll(items[1..], now)
  }

  /** The records as the array they are stored and exported as. */
  function ToValues(cs: seq<Climb>): (r: seq<Value>)
    ensures |r| == |cs|
    ensures forall i :: 0 <= i < |cs| ==> r[i] == ToValue(cs[i])
    decreases |cs|
  {
    if cs == [] then [] else [ToValue(cs[0])] + ToValues(cs[1..])
  }

  /**
   * The local storage slot, as the decoded value it holds: `Absent` is
   * an unset or empty slot, `Unparsable` one whose text is not JSON.
   */
  datatype Slot = Absent | Unparsable | Parsed(v: Value)

  /** What `saveClimbsLocal` leaves in the slot. */
  function Stored(cs: seq<Climb>): (r: Slot)
    ensures r.Parsed? && r.v.Arr? && |r.v.items| == |cs|
    ensures forall i :: 0 <= i < |cs| ==> r.v.items[i] == ToValue(cs[i])
  {
    Parsed(Arr(ToValues(cs)))
  }

  /** `loadClimbsLocal`: the stored array, or nothing when the slot holds anything else. */
  function LoadLocal(slot: Slot): (r: seq<Value>)
    ensures slot.Parsed? && slot.v.Arr? ==> r == slot.v.items
    ensures !(slot.Parsed? && slot.v.Arr?) ==> r == []
  {
    match slot
    case Parsed(Arr(items)) => items
    case _ => []
  }

  /**
   * `loadClimbsPublished` with the boot fallback: `None` is a fetch that
   * failed or a body that is not JSON; a body that is not an array is
   * treated the same way.
   */
  function LoadPublished(published: Option<Value>): (r: seq<Value>)
    ensures published.Some? && published.value.Arr? ==> r == published.value.items
    ensures !(published.Some? && published.value.Arr?) ==> r == []
  {
    match published
    case Some(Arr(items)) => items
    case _ => []
  }

  /** Storing normal records and loading them back gives the same records. */
  lemma {:induction false} StoreLoadRoundTrip(cs: seq<Climb>, now: Timestamp)
    requires AllNormal(cs)
    ensures NormalizeAll(LoadLocal(Stored(cs)), now) == cs
  {
    var r := NormalizeAll(ToValues(cs), now);
    forall i | 0 <= i < |cs| ensures r[i] == cs[i] {
      NormalizeFixpoint(cs[i], now);
    }
  }

  /**
   * The collection a setter-mode boot ends with: the stored records,
   * normalised, or the example climb when there are none.
   */
  function SetterBootClimbs(slot: Slot, now: Timestamp): (r: seq<Climb>)
    ensures r != [] && AllNormal(r)
    ensures LoadLocal(slot) == [] ==> r == [Example(now)]
    ensures LoadLocal(slot) != [] ==> r == NormalizeAll(LoadLocal(slot), now)
  {
    var loaded := NormalizeAll(LoadLocal(slot), now);
    if loaded == [] then [Example(now)] else loaded
  }

  /** Booting twice from what the first boot stored changes nothing. */
  lemma SetterBootStable(slot: Slot, now: Timestamp, later: Timestamp)
    ensures SetterBootClimbs(Stored(SetterBootClimbs(slot, now)), later) == SetterBootClimbs(slot, now)
  {
    var cs := SetterBootClimbs(slot, now);
    StoreLoadRoundTrip(cs, later);
  }
}
