/** The image editor's state: the image as opened, the image on screen, and
    a bounded undo/redo history with a cursor. Image processing itself (PIL's
    filters, rotations, enhancers) is outside the model: an edit arrives with
    the image it produces, and images are values of a type parameter. */
module ImageHistory {
  import opened Text

  /** The history keeps at most this many images. */
  const MaxHistory: nat := 20

  /** The names `apply_filter` knows; any other name changes nothing. */
  const KnownFilters: set<string> := {"blur", "sharpen", "edge", "emboss", "smooth", "detail", "contour"}

  /** The directions `flip_image` knows; any other direction changes nothing. */
  const KnownFlips: set<string> := {"horizontal", "vertical"}

  /** The editing operations of the editor. Their numeric arguments (factor,
      angle, size, box, text) only determine the image PIL produces, which is
      passed to `ApplyEdit` as a value. */
  datatype Edit =
    | Filter(name: string)
    | Brightness
    | Contrast
    | Color
    | Rotate
    | Flip(direction: string)
    | Resize
    | Crop
    | Grayscale
    | AddText

  /** Whether the operation replaces the image (an unknown filter name or
      flip direction falls through every branch). */
  predicate Changes(e: Edit)
  {
    match e
    case Filter(name) => name in KnownFilters
    case Flip(direction) => direction in KnownFlips
    case _ => true
  }

  /** The history after one more image is pushed onto `kept`: the oldest
      entry goes once there are more than `MaxHistory`. */
  function Bounded<Img>(h: seq<Img>): (r: seq<Img>)
    ensures |r| == if |h| > MaxHistory then |h| - 1 else |h|
    ensures forall i :: 0 <= i < |r| ==> r[i] == h[i + |h| - |r|]
    ensures |h| <= MaxHistory ==> r == h
  {
    if |h| > MaxHistory then h[1..] else h
  }

  class ImageEditor<Img(==)> {
    var original: Option<Img>
    var current: Option<Img>
    var history: seq<Img>
    var index: int
    var currentFile: Option<string>

    /** Before the first image is loaded nothing is set and the cursor is -1;
        afterwards the cursor points into a history of at most 20 images. */
    ghost predicate Valid()
      reads this
    {
      || (original.None? && current.None? && history == [] && index == -1)
      || (original.Some? && current.Some? && 0 <= index < |history| <= MaxHistory)
    }

    constructor ()
      ensures Valid()
      ensures original == None && current == None && currentFile == None
      ensures history == [] && index == -1
    {
      original, current, currentFile := None, None, None;
      history, index := [], -1;
    }

    /** `load_image`: `picture` is what PIL's `Image.open(...).convert('RGB')`
        produced, or None when it raised. */
    method LoadImage(filename: string, picture: Option<Img>) returns (ok: bool)
      requires Valid()
      modifies this
      ensures Valid()
      ensures ok == picture.Some?
      ensures ok ==> original == picture && current == picture && currentFile == Some(filename)
      ensures ok ==> history == [picture.value] && index == 0
      ensures !ok ==> unchanged(this)
    {
      if picture.None? {
        return false;
      }
      original, current, currentFile := picture, picture, Some(filename);
      history, index := [picture.value], 0;
      ok := true;
    }

    /** `save_to_history`: drop every entry after the cursor, push the image
        on screen, keep at most 20 entries, and leave the cursor on the last. */
    method SaveToHistory()
      requires Valid()
      modifies this`history, this`index
      ensures Valid()
      ensures old(current).None? ==> history == old(history) && index == old(index)
      ensures old(current).Some? ==>
        history == Bounded(old(history)[..old(index) + 1] + [old(current).value])
      ensures old(current).Some? ==> index == |history| - 1
    {
      if current.Some? {
        history := history[..index + 1];
        history := history + [current.value];
        index := index + 1;
        if |history| > MaxHistory {
          history := history[1..];
          index := index - 1;
        }
      }
    }

    /** `undo`: step the cursor back and show that entry. */
    method Undo() returns (ok: bool)
      requires Valid()
      modifies this`index, this`current
      ensures Valid()
      ensures ok == (old(index) > 0)
      ensures ok ==> index == old(index) - 1 && current == Some(history[index])
      ensures !ok ==> index == old(index) && current == old(current)
    {
      if index > 0 {
        index := index - 1;
        current := Some(history[index]);
        return true;
      }
      return false;
    }

    /** `redo`: step the cursor forward and show that entry. */
    method Redo() returns (ok: bool)
      requires Valid()
      modifies this`index, this`current
      ensures Valid()
      ensures ok == (old(index) < |history| - 1)
      ensures ok ==> index == old(index) + 1 && current == Some(history[index])
      ensures !ok ==> index == old(index) && current == old(current)
    {
      if index < |history| - 1 {
        index := index + 1;
        current := Some(history[index]);
        return true;
      }
      return false;
    }

    /** Every editing operation (`apply_filter`, `adjust_*`, `rotate_image`,
        `flip_image`, `resize_image`, `crop_image`, `convert_to_grayscale`,
        `add_text`): refuse without an image; otherwise push the image as it
        is before the edit, then show `edited` if the operation applies. */
    method ApplyEdit(e: Edit, edited: Img) returns (ok: bool)
      requires Valid()
      modifies this`history, this`index, this`current
      ensures Valid()
      ensures ok == old(current).Some?
      ensures !ok ==> history == old(history) && index == old(index) && current == old(current)
      ensures ok ==> history == Bounded(old(history)[..old(index) + 1] + [old(current).value])
      ensures ok ==> index == |history| - 1
      ensures ok ==> current == if Changes(e) then Some(edited) else old(current)
    {
      if current.None? {
        return false;
      }
      SaveToHistory();
      if Changes(e) {
        current := Some(edited);
      }
      ok := true;
    }

    /** 'Réinitialiser': show the image as picture again and push it. */
    method Reset()
      requires Valid()
      modifies this`history, this`index, this`current
      ensures Valid()
      ensures old(original).None? ==> unchanged(this)
      ensures old(original).Some? ==>
        && current == original
        && history == Bounded(old(history)[..old(index) + 1] + [original.value])
        && index == |history| - 1
    {
      if original.Some? {
        current := original;
        SaveToHistory();
      }
    }

    /** A live brightness, contrast or colour slider: once it has moved by
        more than 0.1 since the last redraw, the image on screen becomes the
        original with the three enhancements applied (`adjusted`), and the
        history is left alone. Returns the slider value now remembered. */
    method SliderMoved(value: real, last: real, adjusted: Img) returns (remembered: real)
      requires Valid()
      modifies this`current
      ensures Valid()
      ensures history == old(history) && index == old(index)
      ensures var moved := value - last > 0.1 || last - value > 0.1;
        && remembered == (if moved then value else last)
        && current == (if moved && original.Some? then Some(adjusted) else old(current))
    {
      remembered := last;
      if value - last > 0.1 || last - value > 0.1 {
        if original.Some? {
          current := Some(adjusted);
        }
        remembered := value;
      }
    }

    /** The same edit with the push moved after the change, so that the
        history holds the image each edit produced. */
    method ApplyEditRecorded(e: Edit, edited: Img) returns (ok: bool)
      requires Valid()
      modifies this`history, this`index, this`current
      ensures Valid()
      ensures ok == old(current).Some?
      ensures !ok ==> history == old(history) && index == old(index) && current == old(current)
      ensures ok ==> current == (if Changes(e) then Some(edited) else old(current))
      ensures ok ==> history == Bounded(old(history)[..old(index) + 1] + [current.value])
      ensures ok ==> index == |history| - 1 && current == Some(history[index])
    {
      if current.None? {
        return false;
      }
      if Changes(e) {
        current := Some(edited);
      }
      SaveToHistory();
      ok := true;
    }
  }

  /** With the push after the change, undo right after an edit shows the
      image as it was before that edit, and redo then shows the edit again,
      whenever the image on screen was the one under the cursor. */
  method UndoRedoAfterRecordedEdit<Img(==)>(ed: ImageEditor<Img>, e: Edit, edited: Img)
      returns (beforeEdit: Option<Img>, afterUndo: Option<Img>, afterRedo: Option<Img>)
    requires ed.Valid() && ed.current.Some? && ed.current == Some(ed.history[ed.index])
    modifies ed
    ensures afterUndo == beforeEdit
    ensures afterRedo == (if Changes(e) then Some(edited) else beforeEdit)
  {
    beforeEdit := ed.current;
    ghost var h, i := ed.history, ed.index;
    var ok := ed.ApplyEditRecorded(e, edited);
    assert ed.index >= 1 && ed.history[ed.index - 1] == h[i];
    ok := ed.Undo();
    afterUndo := ed.current;
    ok := ed.Redo();
    afterRedo := ed.current;
  }

  /** As written: load `a`, apply two edits producing `b` then `c`, and undo.
      The screen shows `a`, not `b`: the first undo reverts two edits. */
  method TwoEditsThenUndo<Img(==)>(a: Img, b: Img, c: Img) returns (shown: Option<Img>)
    requires a != b
    ensures shown == Some(a) && shown != Some(b)
  {
    var ed := new ImageEditor<Img>();
    var ok := ed.LoadImage("photo.png", Some(a));
    ok := ed.ApplyEdit(Grayscale, b);
    ok := ed.ApplyEdit(Grayscale, c);
    ok := ed.Undo();
    shown := ed.current;
  }

  /** As written: load `a`, apply one edit producing `b`, undo, redo. Redo
      shows `a` again: no entry of the history holds `b`. */
  method EditUndoRedoLosesEdit<Img(==)>(a: Img, b: Img) returns (shown: Option<Img>)
    requires a != b
    ensures shown == Some(a) && shown != Some(b)
  {
    var ed := new ImageEditor<Img>();
    var ok := ed.LoadImage("photo.png", Some(a));
    ok := ed.ApplyEdit(Grayscale, b);
    ok := ed.Undo();
    ok := ed.Redo();
    shown := ed.current;
  }

  /** With the push after the change, the same two edits then undo show `b`. */
  method TwoRecordedEditsThenUndo<Img(==)>(a: Img, b: Img, c: Img) returns (shown: Option<Img>)
    ensures shown == Some(b)
  {
    var ed := new ImageEditor<Img>();
    var ok := ed.LoadImage("photo.png", Some(a));
    ok := ed.ApplyEditRecorded(Grayscale, b);
    assert ed.history == [a, b] && ed.index == 1;
    ok := ed.ApplyEditRecorded(Grayscale, c);
    assert ed.history == [a, b, c] && ed.index == 2;
    ok := ed.Undo();
    shown := ed.current;
  }
}
