// The XML writer: whatever is called, what it has written is the beginning of a
// balanced sequence of tags, and closing all tags completes it.
module XmlOutput {
  import opened Tokens

  type Tag = Str

  /** What is written: the parts of tags, and text between or in them. */
  datatype Piece = Start(tag: Tag) | StartEnd | EmptyEnd | Close(tag: Tag) | Attr(name: Str) | Raw(text: Str)

  datatype XMLState = Bare | InTag | Attribute

  // ----- a reader ----------------------------------------------------------------------

  /** The open tags, and whether the last of them is still taking attributes. */
  datatype Open = Open(tags: seq<Tag>, attributes: bool)

  /** One piece: None if it cannot stand here. */
  function ReadPiece(o: Open, p: Piece): Option<Open> {
    match p
    case Start(tag) => if o.attributes then None else Some(Open(o.tags + [tag], true))
    case StartEnd => if o.attributes then Some(o.(attributes := false)) else None
    case EmptyEnd => if o.attributes && o.tags != [] then Some(Open(o.tags[..|o.tags| - 1], false)) else None
    case Close(tag) =>
      if !o.attributes && o.tags != [] && o.tags[|o.tags| - 1] == tag then Some(Open(o.tags[..|o.tags| - 1], false)) else None
    case Attr(_) => if o.attributes then Some(o) else None
    case Raw(_) => if o.attributes then None else Some(o)
  }

  function Read(pieces: seq<Piece>): Option<Open> {
    if pieces == [] then Some(Open([], false))
    else
      var o := Read(pieces[..|pieces| - 1]);
      if o.None? then None else ReadPiece(o.value, pieces[|pieces| - 1])
  }

  lemma {:induction false} ReadNext(pieces: seq<Piece>, p: Piece)
    requires Read(pieces).Some?
    ensures Read(pieces + [p]) == ReadPiece(Read(pieces).value, p)
  {
    assert (pieces + [p])[..|pieces|] == pieces;
  }

  /** The tags that are left when tags are closed up to and with `tag`. */
  function ClosedTo(tags: seq<Tag>, tag: Option<Tag>): seq<Tag> {
    if tags == [] then []
    else if tag == Some(tags[|tags| - 1]) then tags[..|tags| - 1]
    else ClosedTo(tags[..|tags| - 1], tag)
  }

  /** The pieces that close the open tags, innermost first. */
  function Completion(o: Open): seq<Piece>
    decreases |o.tags|
  {
    if o.tags == [] then []
    else
      var init := o.tags[..|o.tags| - 1];
      [if o.attributes then EmptyEnd else Close(o.tags[|o.tags| - 1])] + Completion(Open(init, false))
  }

  /** What ends a start tag that is still taking attributes. */
  function TagEnd(attributes: bool): seq<Piece> { if attributes then [StartEnd] else [] }

  // ----- the writer ----------------------------------------------------------------------

  class XmlWriter {
    var currentState: XMLState
    var currentLevel: nat
    var tagStack: seq<Tag>
    var out: seq<Piece>

    ghost predicate Valid()
      reads this
    {
      && currentLevel == |tagStack| && (currentState.Bare? <==> tagStack == [])
      && Read(out) == Some(OpenTags())
    }

    function OpenTags(): Open
      reads this
    {
      Open(tagStack, currentState.Attribute?)
    }

    constructor ()
      ensures Valid() && tagStack == [] && out == []
    {
      currentState, currentLevel, tagStack, out := Bare, 0, [], [];
    }

    method DecreaseIndent()
      modifies `currentLevel, `currentState
      ensures currentLevel == if old(currentLevel) > 0 then old(currentLevel) - 1 else 0
      ensures currentState == if currentLevel == 0 then Bare else old(currentState)
    {
      if currentLevel > 0 {
        currentLevel := currentLevel - 1;
      }
      if currentLevel == 0 {
        currentState := Bare;
      }
    }

    method CloseOpen()
      requires Valid()
      modifies `currentState, `out
      ensures Valid() && !currentState.Attribute? && out == old(out) + TagEnd(old(currentState.Attribute?))
    {
      if currentState.Attribute? {
        ReadNext(out, StartEnd);
        out := out + [StartEnd];
        currentState := InTag;
      }
    }

    method NewTagOpen(tag: Tag)
      requires Valid()
      modifies this
      ensures Valid() && tagStack == old(tagStack) + [tag] && currentState.Attribute?
      ensures out == old(out) + TagEnd(old(currentState.Attribute?)) + [Start(tag)]
    {
      CloseOpen();
      ReadNext(out, Start(tag));
      out := out + [Start(tag)];
      currentState := Attribute;
      tagStack := tagStack + [tag];
      currentLevel := currentLevel + 1;
    }

    method NewTag(tag: Tag)
      requires Valid()
      modifies this
      ensures Valid() && tagStack == old(tagStack) + [tag] && currentState.InTag?
      ensures out == old(out) + TagEnd(old(currentState.Attribute?)) + [Start(tag)] + [StartEnd]
    {
      NewTagOpen(tag);
      CloseOpen();
    }

    /** Closes the innermost tag; without one nothing is written. */
    method CloseTag()
      requires Valid()
      modifies this
      ensures Valid() && !currentState.Attribute?
      ensures if old(tagStack) == [] then tagStack == [] && out == old(out)
              else
                && tagStack == old(tagStack)[..|old(tagStack)| - 1]
                && out == old(out) + [if old(currentState.Attribute?) then EmptyEnd else Close(old(tagStack)[|old(tagStack)| - 1])]
    {
      match currentState
      case Bare =>
      case InTag =>
        DecreaseIndent();
        var last := tagStack[|tagStack| - 1];
        ReadNext(out, Close(last));
        out := out + [Close(last)];
        tagStack := tagStack[..|tagStack| - 1];
      case Attribute =>
        ReadNext(out, EmptyEnd);
        out := out + [EmptyEnd];
        tagStack := tagStack[..|tagStack| - 1];
        currentState := InTag;
        DecreaseIndent();
    }

    /** Closes tags up to and with the innermost one named `tag`; all of them for None. A tag that is not open is left
        alone. */
    method CloseTo(tag: Option<Tag>)
      requires Valid()
      modifies this
      ensures Valid()
      ensures if tag.Some? && tag.value !in old(tagStack) then tagStack == old(tagStack) && out == old(out)
              else
                && tagStack == ClosedTo(old(tagStack), tag)
                && out + Completion(OpenTags()) == old(out) + Completion(old(OpenTags()))
    {
      if tag.Some? && tag.value !in tagStack {
        return;
      }
      var cont, left := true, |tagStack|;
      while left > 0 && cont
        invariant Valid() && (cont ==> left == |tagStack|)
        invariant out + Completion(OpenTags()) == old(out) + Completion(old(OpenTags()))
        invariant if cont then ClosedTo(tagStack, tag) == ClosedTo(old(tagStack), tag) else tagStack == ClosedTo(old(tagStack), tag)
        decreases left
      {
        left := left - 1;
        cont := Some(tagStack[|tagStack| - 1]) != tag;
        ghost var before, o := out, OpenTags();
        CloseTag();
        assert out + Completion(OpenTags()) == before + Completion(o);
      }
    }

    method CloseAll()
      requires Valid()
      modifies this
      ensures Valid() && tagStack == [] && Read(out) == Some(Open([], false)) && out == old(out) + Completion(old(OpenTags()))
    {
      if tagStack != [] {
        CloseTo(None);
        AllClosed(old(tagStack));
      }
    }

    method AddRaw(text: Str)
      requires Valid()
      modifies `currentState, `out
      ensures Valid() && out == old(out) + TagEnd(old(currentState.Attribute?)) + [Raw(text)]
    {
      CloseOpen();
      ReadNext(out, Raw(text));
      out := out + [Raw(text)];
    }

    /** Outside a start tag an attribute is left out. */
    method AddAttribute(name: Str)
      requires Valid()
      modifies `out
      ensures Valid() && out == if currentState.Attribute? then old(out) + [Attr(name)] else old(out)
    {
      if currentState.Attribute? {
        ReadNext(out, Attr(name));
        out := out + [Attr(name)];
      }
    }

    /** The destructor. */
    method Finish()
      requires Valid()
      modifies this
      ensures Read(out) == Some(Open([], false)) && out == old(out) + Completion(old(OpenTags()))
    {
      CloseAll();
    }
  }

  lemma {:induction false} AllClosed(tags: seq<Tag>)
    ensures ClosedTo(tags, None) == []
  {
    if tags != [] {
      AllClosed(tags[..|tags| - 1]);
    }
  }

  // ----- what balance means ------------------------------------------------------------------

  /** Whatever has been written so far, closing the open tags makes it balanced. */
  lemma {:induction false} CompletionBalances(pieces: seq<Piece>, o: Open)
    requires Read(pieces) == Some(o) && (o.attributes ==> o.tags != [])
    ensures Read(pieces + Completion(o)) == Some(Open([], false))
    decreases |o.tags|
  {
    if o.tags == [] {
      assert pieces + Completion(o) == pieces;
    } else {
      var init := Open(o.tags[..|o.tags| - 1], false);
      var p := if o.attributes then EmptyEnd else Close(o.tags[|o.tags| - 1]);
      ReadNext(pieces, p);
      CompletionBalances(pieces + [p], init);
      assert pieces + Completion(o) == pieces + [p] + Completion(init);
    }
  }
}
