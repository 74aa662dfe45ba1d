/**
 * The editor and collection state of the app (app.js globals `climbs`,
 * `draft` and `currentType`), with the handlers that change them: mark
 * placement, undo, clear, new draft, loading a climb into the editor,
 * save, delete and clearing the collection.
 *
 * The edit-mode checkbox is the field `editMode`; the local storage slot
 * is the field `slot`. The operating mode is fixed at boot.
 */
module Editor {
  import opened Wrappers
  import opened JsValues
  import opened Climbs
  import opened Board
  import opened Collection

  /** The save handler's three checks, in the order it makes them. */
  datatype SaveError = MissingName | MissingStart | MissingFinish

  datatype SaveOutcome = NotSetter | Rejected(error: SaveError) | Saved

  /** A climb can be saved under `name` (already trimmed) when it has a name, a start and a finish. */
  predicate Savable(name: string, d: Climb) {
    name != [] && d.start != [] && d.finish != []
  }

  /** The first failing check of the save handler, or `None` when the draft can be saved. */
  function Validate(name: string, d: Climb): (r: Option<SaveError>)
    ensures r == None <==> Savable(name, d)
    ensures r == Some(MissingName) <==> name == []
    ensures r == Some(MissingStart) <==> name != [] && d.start == []
    ensures r == Some(MissingFinish) <==> name != [] && d.start != [] && d.finish == []
  {
    if name == [] then Some(MissingName)
    else if d.start == [] then Some(MissingStart)
    else if d.finish == [] then Some(MissingFinish)
    else None
  }

  /**
   * The draft as the save handler writes it: the trimmed form fields, and
   * the trimmed image path or, when that is blank, the id's default path.
   */
  function Finalize(d: Climb, nameInput: string, gradeInput: string, faInput: string, imageInput: string): (r: Climb)
    ensures forall t :: Marks(r, t) == Marks(d, t)
    ensures r.id == d.id && r.createdAt == d.createdAt
    ensures r.name == Trim(nameInput) && r.grade == Trim(gradeInput) && r.firstAscent == Trim(faInput)
    ensures r.image != []
    ensures Trim(imageInput) != [] ==> r.image == Trim(imageInput)
    ensures Trim(imageInput) == [] ==> r.image == DefaultImagePath(d.id)
    ensures IsNormal(d) ==> IsNormal(r)
  {
    var image := Trim(imageInput);
    d.(name := Trim(nameInput), grade := Trim(gradeInput), firstAscent := Trim(faInput),
       image := if image != [] then image else DefaultImagePath(d.id))
  }

  /** The stored form of a captured point (the source also rounds it to 4 decimals). */
  function PointValue(p: Point): Value {
    Pt(p.x, p.y)
  }

  class App {
    const setterMode: bool
    var climbs: seq<Climb>
    var draft: Climb
    var currentType: MarkType
    var editMode: bool
    var slot: Slot

    /**
     * Every record, the draft included, is normal, and in setter mode the
     * slot holds exactly the collection.
     */
    ghost predicate Valid()
      reads this
    {
      AllNormal(climbs) && IsNormal(draft) && (setterMode ==> slot == Stored(climbs))
    }

    /**
     * Boot: in setter mode the stored collection is loaded and normalised,
     * seeded with the example when empty, reloaded and stored back; in
     * viewer mode the published collection is loaded, or nothing when it
     * cannot be. Then a fresh draft is started.
     */
    constructor Boot(setterMode: bool, stored: Slot, published: Option<Value>, now: Timestamp, freshId: string)
      ensures Valid()
      ensures this.setterMode == setterMode
      ensures setterMode ==> climbs == SetterBootClimbs(stored, now) && slot == Stored(climbs)
      ensures !setterMode ==> climbs == NormalizeAll(LoadPublished(published), now) && slot == stored
      ensures draft == FreshDraft(freshId, now) && currentType == Start && editMode == setterMode
    {
      this.setterMode := setterMode;
      climbs := [];
      currentType := Start;
      // the placeholder draft with no id and no timestamp
      draft := Climb("", "", "", "", 0, "", [], [], [], []);
      editMode := false;
      slot := stored;
      new;
      if setterMode {
        climbs := NormalizeAll(LoadLocal(slot), now);
        var first := climbs;
        EnsureExampleIfEmptyLocal(now);
        climbs := NormalizeAll(LoadLocal(slot), now);
        if first == [] {
          StoreLoadRoundTrip([Example(now)], now);
        }
        SaveLocal();
      } else {
        climbs := NormalizeAll(LoadPublished(published), now);
      }
      NewDraft(freshId, now);
    }

    /** `saveClimbsLocal`: the slot is overwritten with the whole collection. */
    method SaveLocal()
      modifies this`slot
      ensures slot == Stored(climbs)
    {
      slot := Stored(climbs);
    }

    /** Seeds an empty collection with the example climb and stores it. */
    method EnsureExampleIfEmptyLocal(now: Timestamp)
      modifies this`climbs, this`slot
      ensures old(climbs) != [] ==> climbs == old(climbs) && slot == old(slot)
      ensures old(climbs) == [] ==> climbs == [Example(now)] && slot == Stored(climbs)
    {
      if climbs != [] {
        return;
      }
      climbs := [Example(now)];
      SaveLocal();
    }

    /** `setType`: selects the list later placements and undos act on. */
    method SetType(t: MarkType)
      requires Valid()
      modifies this`currentType
      ensures Valid() && currentType == t
    {
      currentType := t;
    }

    /** The user ticking or unticking the edit-mode checkbox. */
    method SetEditMode(checked: bool)
      requires Valid()
      modifies this`editMode
      ensures Valid() && editMode == checked
    {
      editMode := checked;
    }

    /** `pushPoint`: appends to list `t` and touches nothing else. */
    method PushPoint(t: MarkType, p: Point)
      requires Valid()
      modifies this`draft
      ensures Valid()
      ensures draft == AddMark(old(draft), t, PointValue(p))
      ensures Marks(draft, t) == Marks(old(draft), t) + [PointValue(p)]
      ensures forall u :: u != t ==> Marks(draft, u) == Marks(old(draft), u)
      ensures SameDetails(draft, old(draft))
    {
      var l := Marks(draft, t);
      draft := WithMarks(draft, t, l + [PointValue(p)]);
    }

    /** `popLastPoint`: removes the last element of the active list, if it has one. */
    method PopLastPoint()
      requires Valid()
      modifies this`draft
      ensures Valid()
      ensures draft == DropLast(old(draft), currentType)
      ensures Marks(old(draft), currentType) == [] ==> draft == old(draft)
      ensures Marks(old(draft), currentType) != [] ==>
        Marks(draft, currentType) == Marks(old(draft), currentType)[..|Marks(old(draft), currentType)| - 1]
      ensures forall u :: u != currentType ==> Marks(draft, u) == Marks(old(draft), u)
      ensures SameDetails(draft, old(draft))
    {
      var l := Marks(draft, currentType);
      if |l| > 0 {
        draft := WithMarks(draft, currentType, l[..|l| - 1]);
      }
    }

    /**
     * A click on the board: with the edit box ticked in setter mode, the
     * clamped board position is appended to the active list.
     */
    method ClickBoard(clientX: real, clientY: real, rect: Rect)
      requires Valid()
      requires rect.width > 0.0 && rect.height > 0.0
      modifies this`draft
      ensures Valid()
      ensures editMode && setterMode ==>
        draft == AddMark(old(draft), currentType, PointValue(BoardToNormalized(clientX, clientY, rect)))
      ensures !(editMode && setterMode) ==> draft == old(draft)
    {
      if !editMode {
        return;
      }
      if !setterMode {
        return;
      }
      var pt := BoardToNormalized(clientX, clientY, rect);
      PushPoint(currentType, pt);
    }

    /** The undo button: with the edit box ticked in setter mode, pops the active list. */
    method Undo()
      requires Valid()
      modifies this`draft
      ensures Valid()
      ensures editMode && setterMode ==> draft == DropLast(old(draft), currentType)
      ensures !(editMode && setterMode) ==> draft == old(draft)
    {
      if !editMode {
        return;
      }
      if !setterMode {
        return;
      }
      PopLastPoint();
    }

    /** The clear button: with the edit box ticked in setter mode, empties all four lists. */
    method ClearMarks()
      requires Valid()
      modifies this`draft
      ensures Valid()
      ensures editMode && setterMode ==> draft == ClearedMarks(old(draft))
      ensures !(editMode && setterMode) ==> draft == old(draft)
    {
      if !editMode {
        return;
      }
      if !setterMode {
        return;
      }
      draft := draft.(start := [], mid := [], finish := [], foot := []);
    }

    /**
     * `newDraft`: an empty draft under a fresh id, timestamped now, with
     * the start list active; editable only in setter mode.
     */
    method NewDraft(freshId: string, now: Timestamp)
      modifies this`draft, this`currentType, this`editMode
      ensures draft == FreshDraft(freshId, now)
      ensures currentType == Start && editMode == setterMode
    {
      draft := Climb(freshId, "", "", "", now, DefaultImagePath(freshId), [], [], [], []);
      // The checkbox is ticked and then at once reset by `setEditorReadOnly(!SETTER_MODE)`.
      editMode := setterMode;
      currentType := Start;
    }

    /**
     * `loadClimbIntoEditor`: the draft becomes a normalised copy of `c`;
     * the editor is read-only in viewer mode whatever the caller asks.
     * The active list is left as it was.
     */
    method LoadIntoEditor(c: Climb, readOnly: bool, now: Timestamp)
      requires Valid()
      modifies this`draft, this`editMode
      ensures Valid()
      ensures draft == Normalize(ToValue(c), now)
      ensures IsNormal(c) ==> draft == c
      ensures editMode == (setterMode && !readOnly)
    {
      draft := Normalize(ToValue(c), now);
      NormalizeFixpoint(c, now);
      editMode := !(!setterMode || readOnly);
    }

    /**
     * The save button. In setter mode the form fields are trimmed and the
     * draft checked for a name, then a start, then a finish; the first
     * failure is reported and nothing changes. Otherwise the finalised
     * draft is upserted by id, the collection stored, and a new draft
     * started.
     */
    method Save(nameInput: string, gradeInput: string, faInput: string, imageInput: string,
                freshId: string, now: Timestamp)
      returns (outcome: SaveOutcome)
      requires Valid()
      modifies this`climbs, this`slot, this`draft, this`currentType, this`editMode
      ensures Valid()
      ensures !setterMode ==> outcome == NotSetter
      ensures setterMode ==> (outcome == Saved <==> Validate(Trim(nameInput), old(draft)) == None)
      ensures setterMode && Validate(Trim(nameInput), old(draft)).Some? ==>
        outcome == Rejected(Validate(Trim(nameInput), old(draft)).value)
      ensures outcome != Saved ==>
        climbs == old(climbs) && slot == old(slot) && draft == old(draft)
        && currentType == old(currentType) && editMode == old(editMode)
      ensures outcome == Saved ==>
        climbs == Upsert(old(climbs), Finalize(old(draft), nameInput, gradeInput, faInput, imageInput))
        && slot == Stored(climbs)
        && draft == FreshDraft(freshId, now) && currentType == Start && editMode == setterMode
      ensures UniqueIds(old(climbs)) ==> UniqueIds(climbs)
    {
      if !setterMode {
        return NotSetter;
      }
      var name := Trim(nameInput);
      var grade := Trim(gradeInput);
      var firstAscent := Trim(faInput);
      var image := Trim(imageInput);
      var imagePath := if image != [] then image else DefaultImagePath(draft.id);

      // name, then start, then finish
      var failed := Validate(name, draft);
      if failed.Some? {
        return Rejected(failed.value);
      }

      ghost var saved := Finalize(draft, nameInput, gradeInput, faInput, imageInput);
      draft := draft.(name := name, grade := grade, firstAscent := firstAscent, image := imagePath);
      assert draft == saved;
      Commit(freshId, now);
      outcome := Saved;
    }

    /**
     * The second half of a successful save: the finished draft replaces
     * the first record with its id or is appended, the collection is
     * stored, and a new draft begins.
     */
    method Commit(freshId: string, now: Timestamp)
      requires AllNormal(climbs) && IsNormal(draft)
      modifies this`climbs, this`slot, this`draft, this`currentType, this`editMode
      ensures Valid()
      ensures climbs == Upsert(old(climbs), old(draft)) && slot == Stored(climbs)
      ensures draft == FreshDraft(freshId, now) && currentType == Start && editMode == setterMode
      ensures UniqueIds(old(climbs)) ==> UniqueIds(climbs)
    {
      var idx := FindIndex(climbs, draft.id);
      if idx >= 0 {
        climbs := climbs[idx := draft];
      } else {
        climbs := climbs + [draft];
      }
      assert climbs == Upsert(old(climbs), old(draft));
      UpsertKeepsUniqueIf(old(climbs), old(draft));
      SaveLocal();
      NewDraft(freshId, now);
    }

    /** The delete button of a card, present in setter mode only: drops every record with that id. */
    method DeleteClimb(id: string)
      requires Valid()
      requires setterMode
      modifies this`climbs, this`slot
      ensures Valid()
      ensures climbs == Delete(old(climbs), id) && slot == Stored(climbs)
    {
      DeleteKeepsNormal(climbs, id);
      climbs := Delete(climbs, id);
      SaveLocal();
    }

    /** The clear-collection button: in setter mode and once confirmed, empties and stores the collection. */
    method ClearClimbs(confirmed: bool)
      requires Valid()
      modifies this`climbs, this`slot
      ensures Valid()
      ensures setterMode && confirmed ==> climbs == [] && slot == Stored([])
      ensures !(setterMode && confirmed) ==> climbs == old(climbs) && slot == old(slot)
    {
      if !setterMode {
        return;
      }
      if !confirmed {
        return;
      }
      climbs := [];
      SaveLocal();
    }
  }

  lemma UpsertKeepsUniqueIf(cs: seq<Climb>, c: Climb)
    ensures UniqueIds(cs) ==> UniqueIds(Upsert(cs, c))
  {
    if UniqueIds(cs) {
      UpsertKeepsUnique(cs, c);
    }
  }
}
