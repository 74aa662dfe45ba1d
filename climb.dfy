/**
 * The climb record, its four mark lists, and the normaliser that turns an
 * arbitrary decoded value into a well-shaped record (app.js, normalizeClimb
 * and its helpers).
 */
module Climbs {
  import opened Wrappers
  import opened JsValues

  const ImagesFolder: string := "climb-images"

  /** A reading of the wall clock in epoch milliseconds; the clock never reads 0. */
  type Timestamp = t: int | t > 0 witness 1

  /** The four independent hold categories of a climb. */
  datatype MarkType = Start | Mid | Finish | Foot

  /** The property name each mark list is stored under. */
  function MarkKey(t: MarkType): string {
    match t
    case Start => "start"
    case Mid => "mid"
    case Finish => "finish"
    case Foot => "foot"
  }

  /**
   * A climb record after normalisation. The mark lists hold whatever the
   * input's arrays held: the normaliser does not inspect their elements.
   */
  datatype Climb = Climb(
    id: string,
    name: string,
    grade: string,
    firstAscent: string,
    createdAt: int,
    image: string,
    start: seq<Value>,
    mid: seq<Value>,
    finish: seq<Value>,
    foot: seq<Value>)

  /** `climb-images/<id>.png`, the path the rendered preview of a climb is published under. */
  function DefaultImagePath(id: string): (r: string)
    ensures |r| == |ImagesFolder| + |id| + 5
    ensures r[..|ImagesFolder| + 1] == ImagesFolder + "/"
    ensures r[|ImagesFolder| + 1..|r| - 4] == id
    ensures r[|r| - 4..] == ".png"
  {
    ImagesFolder + "/" + id + ".png"
  }

  /** Distinct ids have distinct default image paths. */
  lemma DefaultImagePathInjective(a: string, b: string)
    requires DefaultImagePath(a) == DefaultImagePath(b)
    ensures a == b
  {
    var pa, pb := DefaultImagePath(a), DefaultImagePath(b);
    var k := |ImagesFolder| + 1;
    assert a == pa[k..|pa| - 4];
    assert b == pb[k..|pb| - 4];
  }

  // ---------- Mark lists ----------

  function Marks(c: Climb, t: MarkType): seq<Value> {
    match t
    case Start => c.start
    case Mid => c.mid
    case Finish => c.finish
    case Foot => c.foot
  }

  /** Everything but the mark lists agrees. */
  predicate SameDetails(a: Climb, b: Climb) {
    a.id == b.id && a.name == b.name && a.grade == b.grade
    && a.firstAscent == b.firstAscent && a.createdAt == b.createdAt && a.image == b.image
  }

  /** `c` with list `t` replaced by `l`. */
  function WithMarks(c: Climb, t: MarkType, l: seq<Value>): (r: Climb)
    ensures Marks(r, t) == l
    ensures forall u :: u != t ==> Marks(r, u) == Marks(c, u)
    ensures SameDetails(r, c)
  {
    match t
    case Start => c.(start := l)
    case Mid => c.(mid := l)
    case Finish => c.(finish := l)
    case Foot => c.(foot := l)
  }

  /** `c` with `p` appended to list `t`. */
  function AddMark(c: Climb, t: MarkType, p: Value): (r: Climb)
    ensures Marks(r, t) == Marks(c, t) + [p]
    ensures forall u :: u != t ==> Marks(r, u) == Marks(c, u)
    ensures SameDetails(r, c)
  {
    WithMarks(c, t, Marks(c, t) + [p])
  }

  /** `c` with the last element of list `t` removed, or `c` itself when that list is empty. */
  function DropLast(c: Climb, t: MarkType): (r: Climb)
    ensures Marks(c, t) == [] ==> r == c
    ensures Marks(c, t) != [] ==> Marks(r, t) + [Marks(c, t)[|Marks(c, t)| - 1]] == Marks(c, t)
    ensures forall u :: u != t ==> Marks(r, u) == Marks(c, u)
    ensures SameDetails(r, c)
  {
    var l := Marks(c, t);
    if l == [] then c else WithMarks(c, t, l[..|l| - 1])
  }

  /** `c` with all four lists emptied. */
  function ClearedMarks(c: Climb): (r: Climb)
    ensures forall t :: Marks(r, t) == []
    ensures SameDetails(r, c)
  {
    c.(start := [], mid := [], finish := [], foot := [])
  }

  /** The number of marks on a climb, over all four lists. */
  function CountMarks(c: Climb): (r: nat)
    ensures r == 0 <==> forall t :: Marks(c, t) == []
    ensures forall t :: |Marks(c, t)| <= r
  {
    assert Marks(c, Start) == c.start && Marks(c, Mid) == c.mid;
    assert Marks(c, Finish) == c.finish && Marks(c, Foot) == c.foot;
    |c.start| + |c.mid| + |c.finish| + |c.foot|
  }

  /** Removing the last mark of a list undoes appending to that same list. */
  lemma DropLastUndoesAdd(c: Climb, t: MarkType, p: Value)
    ensures DropLast(AddMark(c, t, p), t) == c
  {
    var l := Marks(c, t);
    assert (l + [p])[..|l|] == l;
  }

  /**
   * Undo is per list: it removes the last mark of the active list only,
   * whatever was added to another list since.
   */
  lemma DropLastIgnoresOtherLists(c: Climb, t: MarkType, u: MarkType, p: Value)
    requires t != u
    ensures DropLast(AddMark(c, u, p), t) == AddMark(DropLast(c, t), u, p)
  {
  }

  /**
   * A finish mark, then a start mark, then undo with start active: the
   * finish mark stays and the start list is back as it was.
   */
  lemma UndoAfterTwoAdds(c: Climb, p: Value, q: Value)
    ensures DropLast(AddMark(AddMark(c, Finish, p), Start, q), Start) == AddMark(c, Finish, p)
    ensures Marks(DropLast(AddMark(AddMark(c, Finish, p), Start, q), Start), Finish) == c.finish + [p]
  {
    DropLastUndoesAdd(AddMark(c, Finish, p), Start, q);
  }

  lemma CountMarksAdd(c: Climb, t: MarkType, p: Value)
    ensures CountMarks(AddMark(c, t, p)) == CountMarks(c) + 1
  {
  }

  lemma CountMarksDropLast(c: Climb, t: MarkType)
    ensures CountMarks(DropLast(c, t)) == if Marks(c, t) == [] then CountMarks(c) else CountMarks(c) - 1
  {
  }

  lemma CountMarksCleared(c: Climb)
    ensures CountMarks(ClearedMarks(c)) == 0
  {
  }

  // ---------- Normalisation ----------

  /** The elements of an array, and nothing for any other value. */
  function ListOf(v: Value): seq<Value> {
    if v.Arr? then v.items else []
  }

  /** `Number(v) || now`: a number other than 0 or NaN, else the clock reading. */
  function CoerceTimestamp(v: Value, now: Timestamp): (r: int)
    ensures r != 0
    ensures ToNumber(v).Some? && ToNumber(v).value != 0 ==> r == ToNumber(v).value
    ensures ToNumber(v) == None || ToNumber(v) == Some(0) ==> r == now
  {
    match ToNumber(v)
    case Some(n) => if n != 0 then n else now
    case None => now
  }

  /**
   * A record normalisation leaves as it is: the timestamp is set, and the
   * image is set unless the id is empty.
   */
  predicate IsNormal(c: Climb) {
    c.createdAt != 0 && (c.image == "" ==> c.id == "")
  }

  /**
   * `normalizeClimb`: total on every decoded value. Text fields are
   * coerced with `String(v || "")`, a timestamp that is 0 or not a number
   * becomes `now`, a mark list that is not an array becomes empty, and an
   * empty image defaults to the id's image path when the id is not empty.
   */
  function Normalize(v: Value, now: Timestamp): (r: Climb)
    ensures IsNormal(r)
    ensures r.id == CoerceText(Get(v, "id")) && r.name == CoerceText(Get(v, "name"))
    ensures r.grade == CoerceText(Get(v, "grade")) && r.firstAscent == CoerceText(Get(v, "firstAscent"))
    ensures r.createdAt == CoerceTimestamp(Get(v, "createdAt"), now)
    ensures forall t :: Marks(r, t) == ListOf(Get(v, MarkKey(t)))
    ensures CoerceText(Get(v, "image")) != "" ==> r.image == CoerceText(Get(v, "image"))
    ensures CoerceText(Get(v, "image")) == "" ==> r.image == if r.id == "" then "" else DefaultImagePath(r.id)
  {
    var id := CoerceText(Get(v, "id"));
    var image := CoerceText(Get(v, "image"));
    Climb(
      id,
      CoerceText(Get(v, "name")),
      CoerceText(Get(v, "grade")),
      CoerceText(Get(v, "firstAscent")),
      CoerceTimestamp(Get(v, "createdAt"), now),
      if image == "" && id != "" then DefaultImagePath(id) else image,
      ListOf(Get(v, "start")),
      ListOf(Get(v, "mid")),
      ListOf(Get(v, "finish")),
      ListOf(Get(v, "foot")))
  }

  /** The record as the plain object it is stored and exported as. */
  function ToValue(c: Climb): Value {
    Obj(map[
      "id" := Str(c.id),
      "name" := Str(c.name),
      "grade" := Str(c.grade),
      "firstAscent" := Str(c.firstAscent),
      "image" := Str(c.image),
      "start" := Arr(c.start),
      "mid" := Arr(c.mid),
      "finish" := Arr(c.finish),
      "foot" := Arr(c.foot),
      "createdAt" := Num(c.createdAt)])
  }

  /** Normalising a stored record gives the record back exactly when it is normal. */
  lemma NormalizeFixpoint(c: Climb, now: Timestamp)
    ensures Normalize(ToValue(c), now) == c <==> IsNormal(c)
  {
    var v := ToValue(c);
    assert Get(v, "id") == Str(c.id) && Get(v, "image") == Str(c.image);
    assert Get(v, "createdAt") == Num(c.createdAt);
    assert forall t :: Get(v, MarkKey(t)) == Arr(Marks(c, t));
  }

  /** Normalisation is idempotent, whatever the clock reads the second time. */
  lemma NormalizeIdempotent(v: Value, now: Timestamp, later: Timestamp)
    ensures Normalize(ToValue(Normalize(v, now)), later) == Normalize(v, now)
  {
    NormalizeFixpoint(Normalize(v, now), later);
  }

  /** A string id with an empty image gets `climb-images/<id>.png`; an empty id keeps an empty image. */
  lemma NormalizeDefaultsImage(id: string, now: Timestamp)
    ensures Normalize(Obj(map["id" := Str(id), "image" := Str("")]), now).image
         == if id == "" then "" else DefaultImagePath(id)
  {
  }

  /** The mark count of a normalised record counts only the input's arrays. */
  lemma CountMarksNormalize(v: Value, now: Timestamp)
    ensures CountMarks(Normalize(v, now))
         == |ListOf(Get(v, "start"))| + |ListOf(Get(v, "mid"))| + |ListOf(Get(v, "finish"))| + |ListOf(Get(v, "foot"))|
  {
    var r := Normalize(v, now);
    assert Marks(r, Start) == ListOf(Get(v, "start")) && Marks(r, Mid) == ListOf(Get(v, "mid"));
    assert Marks(r, Finish) == ListOf(Get(v, "finish")) && Marks(r, Foot) == ListOf(Get(v, "foot"));
  }

  // ---------- Fixed records ----------

  /** The empty draft `newDraft` starts from. */
  function FreshDraft(id: string, now: Timestamp): (r: Climb)
    ensures IsNormal(r) && CountMarks(r) == 0
    ensures r.id == id && r.createdAt == now && r.image == DefaultImagePath(id)
    ensures r.name == "" && r.grade == "" && r.firstAscent == ""
  {
    Climb(id, "", "", "", now, DefaultImagePath(id), [], [], [], [])
  }

  /** The example climb `p001` an empty local collection is seeded with. */
  function Example(now: Timestamp): (r: Climb)
    ensures IsNormal(r) && r.id == "p001" && r.image == "climb-images/p001.png"
    ensures forall t :: |Marks(r, t)| == 1
  {
    Climb("p001", "Example: Warmup", "V2", "You", now, DefaultImagePath("p001"),
      [Pt(0.25, 0.2)], [Pt(0.55, 0.45)], [Pt(0.75, 0.3)], [Pt(0.3, 0.75)])
  }
}
