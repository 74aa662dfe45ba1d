# Garage board: climb records and their editing rules

A model in Dafny of the record and editing core of the garage climbing
board app (`app.js`). The app lets one person mark holds on a photo of a
home wall. Each climb has four mark lists: start, mid, finish and foot.
Climbs are saved under their id in a local collection, and a read-only viewer
shows a published copy of that collection.

Modules, following the parts of `app.js` they model:

- `JsValues` (`js_values.dfy`): untrusted input. A `Value` is what JSON
  decoding produces, plus `Undefined` for a missing property. The module
  also defines the JavaScript coercions the normaliser relies on:
  truthiness, `String(v)`, `Number(v)` and `trim`.
- `Climbs` (`climb.dfy`): the `Climb` record, its mark lists, the default
  image path, `normalizeClimb`, `countMarks`, the fresh draft and the
  example climb `p001`.
- `Board` (`board.dfy`): `clamp01` and `boardToNormalized` over `real`,
  with the board's bounding rectangle as a parameter.
- `Collection` (`collection.dfy`): find by id, upsert by id, delete
  by id, the local storage slot, the published file, and the collection
  a setter-mode boot ends with.
- `Editor` (`editor.dfy`): the class `App`. It owns the globals `climbs`,
  `draft` and `currentType`, plus the edit-mode checkbox and the storage
  slot. Its methods are the handlers that change them.
- `Wrappers` (`wrappers.dfy`): `Option`.

Inputs the app takes from its host are parameters:

- the operating mode (`isLocalDev`);
- the clock (`Date.now`), as a positive `Timestamp`;
- a fresh id (`crypto.randomUUID`);
- the values typed into the form fields;
- the pointer position and the board's bounding rectangle;
- the answer to the confirmation dialog;
- the stored slot and the published document, both already decoded.

`App.Valid` is the invariant every handler keeps:

- every record in the collection is normal;
- the draft is normal;
- in setter mode, the slot holds exactly the collection.

A record is normal (`IsNormal`) when normalising it changes nothing.

Each handler also states viewer mode's rule: in viewer mode the slot and
the collection never change.

Three consequences of the code that are easy to miss:

- Nothing in `normalizeClimb` makes an empty id non-empty. A record with
  no id keeps the empty id, and its image path stays empty.
- The board click handler (app.js:369-381) is gated by the edit-mode
  checkbox and the mode, not by the read-only flag, and nothing disables
  that checkbox. In a read-only view in setter mode, ticking it lets the
  user place marks. `setEditorReadOnly(true)` disables the form fields
  and the undo, clear, save and type buttons (app.js:308-318), so those
  marks can be neither undone, cleared nor saved, and the active type
  cannot change.
- An `image` that is truthy but has empty text, such as an empty array,
  also receives the default path.

## Model

| member | source | states |
|---|---|---|
| `JsValues.LeadingSpace` | app.js:530-533 | the count of leading whitespace characters: all of them are whitespace and the next one is not |
| `JsValues.TrailingSpaceStart` | app.js:530-533 | where trailing whitespace begins: everything from there on is whitespace and the character before is not |
| `JsValues.Trim` | app.js:530-533 | the trimmed string is empty or has non-whitespace at both ends |
| `JsValues.TrimStripsSurroundingSpace` | app.js:530-533 | the trimmed string is a slice of the input with only whitespace before and after it, so the saved name, grade, first ascent and image are the typed text without its surrounding whitespace |
| `JsValues.TrimEmptyIffBlank` | app.js:530-533 | the trimmed string is empty exactly when the input is all whitespace |
| `JsValues.TrimUnchanged` | app.js:530-533 | a string without whitespace at either end is its own trim |
| `JsValues.TrimIdempotent` | app.js:530-533 | trimming twice equals trimming once |
| `JsValues.NatText` | app.js:66-70 | the decimal spelling of a natural number is non-empty, all digits, and has no leading zero |
| `JsValues.NatTextRoundTrip` | app.js:66-70 | reading the digits of a number's spelling gives back the number |
| `JsValues.IntTextRoundTrip` | app.js:66-70 | `Number(String(n)) == n` for every integer `n` |
| `JsValues.CoerceText` | app.js:66-69 | the text coercion of a field passes a string through unchanged, gives "" for a falsy value, and gives a numeric text that reads back as the same number |
| `Climbs.DefaultImagePath` | app.js:25-27 | the path is the images folder, a slash, the id and `.png`, each in its place, and its length is their total |
| `Climbs.DefaultImagePathInjective` | app.js:25-27 | distinct ids get distinct default image paths |
| `Climbs.WithMarks` | app.js:360-367 | replacing one mark list sets that list and leaves the other three lists and every other field as they were |
| `Climbs.AddMark` | app.js:360-363 | the point is appended to list `t`; the other three lists and every detail are unchanged |
| `Climbs.DropLast` | app.js:365-367 | an empty list `t` leaves the record as it was; otherwise list `t` loses exactly its last element; the other lists and every detail are unchanged |
| `Climbs.CountMarks` | app.js:83-85 | the count is zero exactly when all four lists are empty, and it bounds the length of each list |
| `Climbs.ClearedMarks` | app.js:393-396 | all four lists become empty and every other field stays |
| `Climbs.DropLastUndoesAdd` | app.js:360-367 | removing the last mark of a list undoes appending a mark to that same list |
| `Climbs.DropLastIgnoresOtherLists` | app.js:365-367 | undo on one list commutes with an append to another list, so undo is per list |
| `Climbs.UndoAfterTwoAdds` | app.js:360-367 | finish P, start Q, undo on start leaves the finish mark and removes only Q |
| `Climbs.CountMarksAdd` | app.js:83-85 | appending a mark raises the count by one |
| `Climbs.CountMarksDropLast` | app.js:83-85 | undo lowers the count by one, or keeps it when the active list is empty |
| `Climbs.CountMarksCleared` | app.js:83-85 | a cleared draft has no marks |
| `Climbs.CoerceTimestamp` | app.js:70 | the timestamp coercion is never 0; it keeps a number other than 0 and is `now` for 0 or NaN |
| `Climbs.Normalize` | app.js:64-81 | total on every modelled value (the source can throw, see "Left out"); coerces the text fields, defaults the timestamp, keeps a mark list only if it is an array and empties it otherwise, and defaults an empty image to `climb-images/<id>.png` unless the id is empty; the result is normal |
| `Climbs.NormalizeFixpoint` | app.js:64-81 | normalising a stored record returns it unchanged if and only if it is normal |
| `Climbs.NormalizeIdempotent` | app.js:64-81 | normalising twice equals normalising once, whatever the clock reads the second time |
| `Climbs.NormalizeDefaultsImage` | app.js:77-78 | `{id, image: ""}` normalises to image `climb-images/<id>.png`, or to "" when the id is empty |
| `Climbs.CountMarksNormalize` | app.js:83-85 | the mark count of a normalised record adds the lengths of the input's arrays; a list that is absent or not an array counts zero |
| `Climbs.FreshDraft` | app.js:400-413 | a new draft has the given id, is timestamped now, has the default image path, empty texts and no marks, and is normal |
| `Climbs.Example` | app.js:580-597 | the seed climb has id `p001`, image `climb-images/p001.png`, one mark in each list, and is normal |
| `Board.Clamp01` | app.js:329-331 | the result lies in [0, 1]; it is the identity on [0, 1], 0 below and 1 above |
| `Board.Clamp01Idempotent` | app.js:329-331 | clamping twice equals clamping once |
| `Board.BoardToNormalized` | app.js:333-338 | both coordinates lie in [0, 1]; a pointer at or beyond an edge of the rectangle maps to that edge |
| `Board.BoardToNormalizedInverse` | app.js:333-338 | inside the rectangle the captured point maps back to the exact pointer position |
| `Collection.FindIndex` | app.js:554 | `findIndex` by id returns the first position holding the id, or -1 exactly when no record has it |
| `Collection.Upsert` | app.js:554-556 | with a matching id, the length stays the same and the first match is replaced; with no match, the record is appended |
| `Collection.UpsertThenFind` | app.js:554-556 | after an upsert, looking up the id finds the saved record |
| `Collection.UpsertKeepsUnique` | app.js:554-556 | upserting keeps ids unique |
| `Collection.Delete` | app.js:256 | the survivors are exactly the records whose id differs |
| `Collection.DeleteAppend` | app.js:256 | deleting distributes over concatenation, so the survivors keep their original order |
| `Collection.DeleteAbsent` | app.js:256 | deleting an id that no record has changes nothing |
| `Collection.DeleteKeepsUnique` | app.js:256 | deleting keeps ids unique |
| `Collection.DeleteKeepsNormal` | app.js:256 | deleting keeps every surviving record normal |
| `Collection.NormalizeAll` | app.js:606 | mapping the normaliser keeps the length, normalises each element in place, and yields only normal records |
| `Collection.ToValues` | app.js:52-54 | the stored array holds each record's object form, in order |
| `Collection.Stored` | app.js:52-54 | the slot holds an array with one element per record, each record's object form, in order |
| `Collection.LoadLocal` | app.js:41-50 | loading gives the stored array; an absent, unparsable or non-array slot gives nothing |
| `Collection.LoadPublished` | app.js:56-62 | the published array is used; a failed fetch or a non-array body gives nothing |
| `Collection.StoreLoadRoundTrip` | app.js:52-54 | storing normal records and loading and normalising them gives the same records |
| `Collection.SetterBootClimbs` | app.js:605-609 | the setter-mode collection after boot is never empty: it is the example alone when nothing was stored, and otherwise exactly the stored elements, each normalised, in order |
| `Collection.SetterBootStable` | app.js:605-609 | booting again from what a boot stored changes nothing |
| `Editor.Validate` | app.js:536-547 | the draft can be saved exactly when there is no error; otherwise the reported error is the first one in the order name, start, finish |
| `Editor.Finalize` | app.js:530-534 | the saved draft keeps its id, timestamp and marks, takes the trimmed form texts, takes the trimmed image path or the default path when blank, and stays normal |
| `Editor.App.Boot` | app.js:602-622 | setter mode loads, seeds an empty collection and stores the result; viewer mode loads the published file or nothing and leaves the slot alone; then a fresh draft with start active |
| `Editor.App.SaveLocal` | app.js:52-54 | the slot is overwritten with the whole collection |
| `Editor.App.EnsureExampleIfEmptyLocal` | app.js:580-600 | a non-empty collection is untouched; an empty one becomes the example climb, stored |
| `Editor.App.SetType` | app.js:321-324 | the active list becomes `t` |
| `Editor.App.SetEditMode` | app.js:369-392 | the edit-mode checkbox that the placement, undo and clear handlers consult |
| `Editor.App.PushPoint` | app.js:360-363 | the point is appended at the end of list `t`; the other lists and all other fields stay |
| `Editor.App.PopLastPoint` | app.js:365-367 | the last element of the active list is removed, or nothing happens when that list is empty; the other lists stay |
| `Editor.App.ClickBoard` | app.js:369-381 | with edit mode ticked in setter mode, the clamped board point is appended to the active list; otherwise nothing happens |
| `Editor.App.Undo` | app.js:383-388 | with edit mode ticked in setter mode, pops the active list; otherwise nothing happens |
| `Editor.App.ClearMarks` | app.js:390-398 | with edit mode ticked in setter mode, all four lists are emptied; otherwise nothing happens |
| `Editor.App.NewDraft` | app.js:400-424 | the draft becomes the fresh empty draft, start is active, and the editor is editable exactly in setter mode |
| `Editor.App.LoadIntoEditor` | app.js:426-437 | the draft is a normalised copy of the climb, equal to it when the climb is normal; editable only in setter mode and when not asked to be read-only |
| `Editor.App.Save` | app.js:527-563 | viewer mode ignores it; otherwise the first failing check is reported and nothing changes; on success the finalised draft is upserted, stored, and a fresh draft begins; unique ids stay unique |
| `Editor.App.Commit` | app.js:554-562 | the upsert, the store and the fresh draft that end a successful save |
| `Editor.App.DeleteClimb` | app.js:255-259 | every record with the id is dropped, the survivors stay normal, and the collection is stored (unique ids are kept by `Collection.DeleteKeepsUnique`) |
| `Editor.App.ClearClimbs` | app.js:289-300 | in setter mode, once confirmed, the collection is emptied and stored; otherwise nothing changes |

## Left out

- DOM work is not modelled. This covers rendering the cards and markers, the lightbox, view routing, and `setEditorReadOnly`'s disabling of controls. The handlers' own guards are modelled; disabled buttons are not. So in a read-only view with the checkbox ticked, the model's `App.Undo`, `App.ClearMarks`, `App.SetType` and `App.Save` can run, where the source's disabled buttons fire no click.
- The home list's sort by `createdAt` is not modelled. It affects display only.
- JSON text is not modelled. The slot and the published document are held as decoded values. The deep copy `JSON.parse(JSON.stringify(c))` is taken as the record's object form `ToValue(c)`.
- `fetch` is not modelled. The published document is a parameter, with `None` for a failed fetch or a body that is not JSON.
- The canvas compositor is not modelled. This covers `colorForType`, `drawOutlinedCircle`, `makeClimbCanvas`, PNG encoding and the downloads. These are raster graphics and browser APIs.
- `downloadTextFile` and the export box are not modelled. They are browser I/O.
- `Editor.PointValue`: the `toFixed(4)` rounding of captured coordinates is not modelled. Coordinates are exact reals.
- `Collection.NormalizeAll`: one clock reading stands for the separate `Date.now()` calls made while a list is normalised.
- The freshness of ids from `crypto.randomUUID` is not modelled. A fresh id is a parameter.
- `JsValues.Value`: numbers other than point coordinates are integers. A point object `{x, y}` with numeric coordinates is the constructor `Pt`. Fractional numbers in text or timestamp fields are not modelled.
- `JsValues.StringToNumber` recognises only blank text and optionally signed decimal integers. Other numeric spellings, such as `1.5`, `1e3`, `0x1F` and `Infinity`, give NaN in the model where JavaScript gives a number.
- `JsValues.IntText` writes every integer in plain digits. JavaScript writes magnitudes of 10^21 and above in exponent form.
- `JsValues.Value`: numbers are exact integers in the model. In the source they are doubles, so an integer above 2^53 is rounded when decoded. For integer-valued doubles from about 10^17 upward, `String()` prints only the shortest digits that round-trip, followed by zeros: 12345678901234567168 prints as "12345678901234567000". This affects `CoerceText` of a numeric text field and `CoerceTimestamp` of a huge numeric string. No modelled operation depends on such values.
- `JsValues.ToText`: a decoded object with its own `toString` property is "[object Object]" in the model. In the source that property can only be a non-callable JSON value, so `String()` and `Number()` on the object throw a TypeError, and so does `String()` on an array holding one. Such an object in a text field or in `createdAt` makes `normalizeClimb` throw. Viewer boot (app.js:611-616) catches the error and shows an empty collection, so one bad record hides all the others. Setter boot (app.js:606) does not catch it, and the rest of the boot is skipped. An object whose only own conversion key is `valueOf` gives "[object Object]" or NaN, as modelled.
- `Climbs.Normalize` drops properties other than the ten climb fields. The source's object spread carries them through, and no modelled operation reads them.
- Mark types are the four-valued `MarkType`. `setType` with any other string cannot be expressed, so the `draft[currentType] &&` guard in `popLastPoint` does not arise.
- `Board.BoardToNormalized` requires a rectangle with positive width and height. With a zero width or height, the source divides by zero. A pointer exactly on the left or top edge then gives 0/0 = NaN, which `clamp01` passes through. Any other pointer gives plus or minus Infinity, which `clamp01` turns into 1 or 0.
- A failing `localStorage.setItem`, such as a quota or security error, is not modelled. `App.Valid`'s `slot == Stored(climbs)` assumes every write succeeds. In the source, when `saveClimbsLocal` throws inside save (app.js:555-559), `climbs` has already been updated. The slot then keeps its old text, and `newDraft()` is skipped.
- `JsValues.Value` may hold `Undefined` inside arrays and objects, but JSON decoding never produces it below the top level. The store-then-load round trip (`Collection.Stored`, `Collection.StoreLoadRoundTrip`) treats the stored text as the value itself. That would be wrong for an `Undefined` element, which `JSON.stringify` writes as `null`. Mark lists from decoded input never contain one.
- The async boot, event listener wiring, and `alert`/`confirm` dialogs are not modelled. The validation message is the `SaveOutcome`, and the confirmation is a parameter.
