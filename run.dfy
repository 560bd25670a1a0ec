/** A run of a word-processing paragraph: its list of inner-content entries
    (text, tabs, breaks, field characters, field instructions, drawings) and
    its run properties, whose first base carries the bold and italic flags. */
module DocumentRun {
  import opened Wrappers

  // ---------------------------------------------------------------------------
  // The XML records, as values
  // ---------------------------------------------------------------------------

  datatype FldCharType = Begin | Separate | End

  /** A field character: its type and the optional dirty attribute. */
  datatype FldChar = FldChar(charType: FldCharType, dirty: Option<bool>)

  /** The picture placed inside an anchor's graphic data. */
  datatype Pic = Pic(cNvPrId: bv32, embed: string)

  /** An anchored drawing, reduced to the attributes the run sets and reads. */
  datatype Anchor = Anchor(
    simplePos: bool,
    allowOverlap: bool,
    graphicUri: string,
    docPrId: bv32,
    pic: Option<Pic>)

  datatype Drawing = Drawing(anchors: seq<Anchor>)

  /** One inner-content entry. Each member is either absent or present, as
      each pointer of the XML record is nil or not. */
  datatype InnerContent = InnerContent(
    t: Option<string>,
    tab: bool,
    br: bool,
    fldChar: Option<FldChar>,
    instrText: Option<string>,
    drawing: Option<Drawing>)

  /** A freshly allocated entry: nothing set. */
  const EmptyIC := InnerContent(None, false, false, None, None, None)

  function TextEntry(s: string): InnerContent { EmptyIC.(t := Some(s)) }
  const TabEntry := EmptyIC.(tab := true)
  const BreakEntry := EmptyIC.(br := true)
  const FieldBegin := EmptyIC.(fldChar := Some(FldChar(Begin, Some(true))))
  const FieldEnd := EmptyIC.(fldChar := Some(FldChar(End, None)))
  function InstrEntry(s: string): InnerContent { EmptyIC.(instrText := Some(s)) }
  function DrawingEntry(a: Anchor): InnerContent { EmptyIC.(drawing := Some(Drawing([a]))) }

  /** The on/off flags of one run-properties base; true means the flag's
      element is present. */
  datatype RPrBase = RPrBase(b: bool, bCs: bool, i: bool, iCs: bool)

  const EmptyBase := RPrBase(false, false, false, false)

  datatype RPr = RPr(bases: seq<RPrBase>)

  /** Identifies an image reference; equal identities are the same reference. */
  type ImageRefId = nat

  const PictureUri := "http://schemas.openxmlformats.org/drawingml/2006/picture"
  const NoImageError := "couldn't find reference to image within document"
  const NoRelationError := "couldn't find reference to image within document relations"

  // ---------------------------------------------------------------------------
  // Specification functions
  // ---------------------------------------------------------------------------

  /** What one entry contributes to the run's text. */
  function Piece(ic: InnerContent): string {
    (if ic.t.Some? then ic.t.value else "") + (if ic.tab then "\t" else "")
  }

  /** The run's text: the entries' pieces, in order. */
  function TextOf(ics: seq<InnerContent>): string
  {
    if ics == [] then "" else TextOf(ics[..|ics| - 1]) + Piece(ics[|ics| - 1])
  }

  lemma {:induction false} TextOfConcat(a: seq<InnerContent>, b: seq<InnerContent>)
    ensures TextOf(a + b) == TextOf(a) + TextOf(b)
    decreases |b|
  {
    if b == [] {
      assert a + b == a;
    } else {
      var b' := b[..|b| - 1];
      var last := b[|b| - 1];
      assert (a + b)[..|a + b| - 1] == a + b' && (a + b)[|a + b| - 1] == last;
      TextOfConcat(a, b');
      calc {
        TextOf(a + b);
        TextOf(a + b') + Piece(last);
        (TextOf(a) + TextOf(b')) + Piece(last);
        TextOf(a) + (TextOf(b') + Piece(last));
      }
    }
  }

  /** Appending entries adds exactly their pieces to the text; entries that
      are neither text nor tab add nothing. */
  lemma TextOfAppend(ics: seq<InnerContent>, more: seq<InnerContent>)
    ensures TextOf(ics + more) == TextOf(ics) + TextOf(more)
    ensures (forall k :: 0 <= k < |more| ==> Piece(more[k]) == "") ==> TextOf(ics + more) == TextOf(ics)
  {
    TextOfConcat(ics, more);
    if forall k :: 0 <= k < |more| ==> Piece(more[k]) == "" {
      TextOfSilent(more);
    }
  }

  lemma TextOfSingle(ic: InnerContent)
    ensures TextOf([ic]) == Piece(ic)
  {
  }

  /** Entries that are neither text nor tab contribute nothing. */
  lemma {:induction false} TextOfSilent(ics: seq<InnerContent>)
    requires forall k :: 0 <= k < |ics| ==> Piece(ics[k]) == ""
    ensures TextOf(ics) == ""
  {
    if ics != [] {
      TextOfSilent(ics[..|ics| - 1]);
    }
  }

  /** The anchors of all drawing entries, in entry order, then anchor order. */
  function AnchorsOf(ics: seq<InnerContent>): seq<Anchor>
  {
    if ics == [] then []
    else
      var last := ics[|ics| - 1];
      AnchorsOf(ics[..|ics| - 1]) + (if last.drawing.Some? then last.drawing.value.anchors else [])
  }

  lemma {:induction false} AnchorsOfConcat(a: seq<InnerContent>, b: seq<InnerContent>)
    ensures AnchorsOf(a + b) == AnchorsOf(a) + AnchorsOf(b)
    decreases |b|
  {
    if b == [] {
      assert a + b == a;
    } else {
      var b' := b[..|b| - 1];
      var last := b[|b| - 1];
      var extra := if last.drawing.Some? then last.drawing.value.anchors else [];
      assert (a + b)[..|a + b| - 1] == a + b' && (a + b)[|a + b| - 1] == last;
      AnchorsOfConcat(a, b');
      calc {
        AnchorsOf(a + b);
        AnchorsOf(a + b') + extra;
        (AnchorsOf(a) + AnchorsOf(b')) + extra;
        AnchorsOf(a) + (AnchorsOf(b') + extra);
      }
    }
  }

  predicate AnyBold(bases: seq<RPrBase>) {
    exists j :: 0 <= j < |bases| && bases[j].b
  }

  predicate AnyItalic(bases: seq<RPrBase>) {
    exists j :: 0 <= j < |bases| && bases[j].i
  }

  /** The run properties after ensureRPR: a record with one empty base when
      there was none, the existing record, untouched, otherwise. */
  function EnsureRPr(r: Option<RPr>): (e: Option<RPr>)
    ensures e.Some?
    ensures r.Some? ==> e == r
    ensures r.None? ==> e.value.bases == [EmptyBase]
  {
    if r.None? then Some(RPr([EmptyBase])) else r
  }

  lemma EnsureRPrIdempotent(r: Option<RPr>)
    ensures EnsureRPr(EnsureRPr(r)) == EnsureRPr(r)
  {
  }

  /** Base 0 with B and BCs present (on) or absent (off); all else kept. */
  function WithBold(p: RPr, on: bool): (q: RPr)
    requires |p.bases| > 0
    ensures |q.bases| == |p.bases|
    ensures q.bases[0].b == on && q.bases[0].bCs == on
    ensures q.bases[0].i == p.bases[0].i && q.bases[0].iCs == p.bases[0].iCs
    ensures forall j :: 0 < j < |p.bases| ==> q.bases[j] == p.bases[j]
  {
    p.(bases := p.bases[0 := p.bases[0].(b := on, bCs := on)])
  }

  /** Base 0 with I and ICs present (on) or absent (off); all else kept. */
  function WithItalic(p: RPr, on: bool): (q: RPr)
    requires |p.bases| > 0
    ensures |q.bases| == |p.bases|
    ensures q.bases[0].i == on && q.bases[0].iCs == on
    ensures q.bases[0].b == p.bases[0].b && q.bases[0].bCs == p.bases[0].bCs
    ensures forall j :: 0 < j < |p.bases| ==> q.bases[j] == p.bases[j]
  {
    p.(bases := p.bases[0 := p.bases[0].(i := on, iCs := on)])
  }

  /** Setting bold makes the run bold; clearing it leaves the run bold exactly
      when a later base still carries B; italic is not affected. */
  lemma SetBoldThenIsBold(p: RPr, on: bool)
    requires |p.bases| > 0
    ensures on ==> AnyBold(WithBold(p, on).bases)
    ensures !on ==> (AnyBold(WithBold(p, on).bases) <==>
                     exists j :: 1 <= j < |p.bases| && p.bases[j].b)
    ensures AnyItalic(WithBold(p, on).bases) == AnyItalic(p.bases)
  {
  }

  /** The italic counterpart of SetBoldThenIsBold. */
  lemma SetItalicThenIsItalic(p: RPr, on: bool)
    requires |p.bases| > 0
    ensures on ==> AnyItalic(WithItalic(p, on).bases)
    ensures !on ==> (AnyItalic(WithItalic(p, on).bases) <==>
                     exists j :: 1 <= j < |p.bases| && p.bases[j].i)
    ensures AnyBold(WithItalic(p, on).bases) == AnyBold(p.bases)
  {
  }

  /** The instruction text of a field: the code, then a space and the
      formatting switches when there are any. */
  function FieldInstruction(code: string, fmt: string): string {
    if fmt != "" then code + " " + fmt else code
  }

  /** The identifier drawn for a drawing, kept within a signed 32-bit range. */
  function MaskId(rnd: bv32): (id: bv32)
    ensures id <= 0x7FFF_FFFF
    ensures id | (rnd & 0x8000_0000) == rnd
  {
    0x7FFF_FFFF & rnd
  }

  /** The last index of the sequence holding x, or -1 when there is none. */
  function LastIndexOf(s: seq<ImageRefId>, x: ImageRefId): (r: int)
    ensures -1 <= r < |s|
    ensures r == -1 <==> x !in s
    ensures r >= 0 ==> s[r] == x && forall j :: r < j < |s| ==> s[j] != x
  {
    if s == [] then -1
    else if s[|s| - 1] == x then |s| - 1
    else LastIndexOf(s[..|s| - 1], x)
  }

  /** A new anchor as the run first builds it: before any picture is attached. */
  function BaseAnchor(id: bv32): Anchor {
    Anchor(simplePos := false, allowOverlap := true, graphicUri := PictureUri,
           docPrId := id, pic := None)
  }

  // ---------------------------------------------------------------------------
  // The document and the run
  // ---------------------------------------------------------------------------

  /** The part of a document a run consults: its image references, in order. */
  class Document {
    var images: seq<ImageRefId>

    constructor (images: seq<ImageRefId>)
      ensures this.images == images
    {
      this.images := images;
    }
  }

  /** A run: the document it belongs to, its entries and its properties. */
  class Run {
    const doc: Document
    var inner: seq<InnerContent>
    var rPr: Option<RPr>

    constructor (doc: Document)
      ensures this.doc == doc && inner == [] && rPr == None
    {
      this.doc := doc;
      inner := [];
      rPr := None;
    }

    /** The text of the run: text contents and a tab character per tab. */
    method Text() returns (s: string)
      ensures s == TextOf(inner)
    {
      if |inner| == 0 {
        return "";
      }
      s := "";
      var k := 0;
      while k < |inner|
        invariant 0 <= k <= |inner|
        invariant s == TextOf(inner[..k])
      {
        var ic := inner[k];
        assert inner[..k + 1][..k] == inner[..k];
        if ic.t.Some? {
          s := s + ic.t.value;
        }
        if ic.tab {
          s := s + "\t";
        }
        k := k + 1;
      }
      assert inner[..k] == inner;
    }

    method AddText(s: string)
      modifies this`inner
      ensures inner == old(inner) + [TextEntry(s)]
      ensures TextOf(inner) == old(TextOf(inner)) + s
    {
      var ic := EmptyIC;
      inner := inner + [ic];
      inner := inner[|inner| - 1 := ic.(t := Some(s))];
      TextOfAppend(old(inner), [TextEntry(s)]);
      TextOfSingle(TextEntry(s));
    }

    /** Appends an empty entry and returns its index, for the caller to fill. */
    method NewIC() returns (k: nat)
      modifies this`inner
      ensures k == |old(inner)| && inner == old(inner) + [EmptyIC]
    {
      k := |inner|;
      inner := inner + [EmptyIC];
    }

    method AddTab()
      modifies this`inner
      ensures inner == old(inner) + [TabEntry]
      ensures TextOf(inner) == old(TextOf(inner)) + "\t"
    {
      var k := NewIC();
      inner := inner[k := inner[k].(tab := true)];
      TextOfAppend(old(inner), [TabEntry]);
      TextOfSingle(TabEntry);
    }

    method AddBreak()
      modifies this`inner
      ensures inner == old(inner) + [BreakEntry]
      ensures TextOf(inner) == old(TextOf(inner))
    {
      var k := NewIC();
      inner := inner[k := inner[k].(br := true)];
      TextOfAppend(old(inner), [BreakEntry]);
    }

    /** Appends a field's begin character (dirty), its instruction, and its
        end character. */
    method AddFieldWithFormatting(code: string, fmt: string)
      modifies this`inner
      ensures inner == old(inner) + [FieldBegin, InstrEntry(FieldInstruction(code, fmt)), FieldEnd]
      ensures fmt != "" ==> inner[|inner| - 2].instrText == Some(code + " " + fmt)
      ensures fmt == "" ==> inner[|inner| - 2].instrText == Some(code)
      ensures TextOf(inner) == old(TextOf(inner))
    {
      var k := NewIC();
      inner := inner[k := inner[k].(fldChar := Some(FldChar(Begin, Some(true))))];

      k := NewIC();
      var instr := FieldInstruction(code, fmt);
      inner := inner[k := inner[k].(instrText := Some(instr))];

      k := NewIC();
      inner := inner[k := inner[k].(fldChar := Some(FldChar(End, None)))];

      var added := [FieldBegin, InstrEntry(FieldInstruction(code, fmt)), FieldEnd];
      assert inner == old(inner) + added;
      TextOfAppend(old(inner), added);
    }

    method AddField(code: string)
      modifies this`inner
      ensures inner == old(inner) + [FieldBegin, InstrEntry(code), FieldEnd]
      ensures TextOf(inner) == old(TextOf(inner))
    {
      AddFieldWithFormatting(code, "");
    }

    method EnsureRPR()
      modifies this`rPr
      ensures rPr == EnsureRPr(old(rPr))
    {
      if rPr.None? {
        rPr := Some(RPr([EmptyBase]));
      }
    }

    method IsBold() returns (r: bool)
      ensures r == (rPr.Some? && AnyBold(rPr.value.bases))
    {
      if rPr.None? {
        return false;
      }
      var bases := rPr.value.bases;
      var k := 0;
      while k < |bases|
        invariant 0 <= k <= |bases|
        invariant forall j :: 0 <= j < k ==> !bases[j].b
      {
        if bases[k].b {
          return true;
        }
        k := k + 1;
      }
      return false;
    }

    /** Sets or clears B and BCs in the first base, creating the properties
        when the run has none. */
    method SetBold(on: bool)
      requires rPr.None? || |rPr.value.bases| > 0
      modifies this`rPr
      ensures rPr == Some(WithBold(EnsureRPr(old(rPr)).value, on))
      ensures on ==> AnyBold(rPr.value.bases)
      ensures !on && |rPr.value.bases| == 1 ==> !AnyBold(rPr.value.bases)
      ensures AnyItalic(rPr.value.bases) == AnyItalic(EnsureRPr(old(rPr)).value.bases)
    {
      SetBoldThenIsBold(EnsureRPr(rPr).value, on);
      EnsureRPR();
      var p := rPr.value;
      rPr := Some(p.(bases := p.bases[0 := p.bases[0].(b := on, bCs := on)]));
    }

    method IsItalic() returns (r: bool)
      ensures r == (rPr.Some? && AnyItalic(rPr.value.bases))
    {
      if rPr.None? {
        return false;
      }
      var bases := rPr.value.bases;
      var k := 0;
      while k < |bases|
        invariant 0 <= k <= |bases|
        invariant forall j :: 0 <= j < k ==> !bases[j].i
      {
        if bases[k].i {
          return true;
        }
        k := k + 1;
      }
      return false;
    }

    /** Sets or clears I and ICs in the first base, creating the properties
        when the run has none. */
    method SetItalic(on: bool)
      requires rPr.None? || |rPr.value.bases| > 0
      modifies this`rPr
      ensures rPr == Some(WithItalic(EnsureRPr(old(rPr)).value, on))
      ensures on ==> AnyItalic(rPr.value.bases)
      ensures !on && |rPr.value.bases| == 1 ==> !AnyItalic(rPr.value.bases)
      ensures AnyBold(rPr.value.bases) == AnyBold(EnsureRPr(old(rPr)).value.bases)
    {
      SetItalicThenIsItalic(EnsureRPr(rPr).value, on);
      EnsureRPR();
      var p := rPr.value;
      rPr := Some(p.(bases := p.bases[0 := p.bases[0].(i := on, iCs := on)]));
    }

    /** The anchors of every drawing entry, flattened in order. */
    method DrawingAnchored() returns (ret: seq<Anchor>)
      ensures ret == AnchorsOf(inner)
    {
      ret := [];
      var k := 0;
      while k < |inner|
        invariant 0 <= k <= |inner|
        invariant ret == AnchorsOf(inner[..k])
      {
        var ic := inner[k];
        assert inner[..k + 1][..k] == inner[..k];
        if ic.drawing.Some? {
          var anchors := ic.drawing.value.anchors;
          var m := 0;
          while m < |anchors|
            invariant 0 <= m <= |anchors|
            invariant ret == AnchorsOf(inner[..k]) + anchors[..m]
          {
            ret := ret + [anchors[m]];
            m := m + 1;
          }
          assert anchors[..m] == anchors;
        }
        k := k + 1;
      }
      assert inner[..k] == inner;
    }

    /** The index of the last image reference of the document equal to ref. */
    method FindImageIndex(ref: ImageRefId) returns (idx: int)
      ensures idx == LastIndexOf(doc.images, ref)
    {
      var images := doc.images;
      idx := -1;
      var k := 0;
      while k < |images|
        invariant 0 <= k <= |images|
        invariant idx == LastIndexOf(images[..k], ref)
      {
        assert images[..k + 1][..k] == images[..k];
        if images[k] == ref {
          idx := k;
        }
        k := k + 1;
      }
      assert images[..k] == images;
    }

    /** Appends a drawing entry with one anchor, then looks the image up.
        `ridForIndex` stands for the document relationships' lookup of an
        image's relationship ID ("" when there is none) and `rnd` for the
        random number drawn for the anchor's identifiers. On either lookup
        error the appended entry stays, without a picture. */
    method AddDrawingAnchored(img: ImageRefId, rnd: bv32, ridForIndex: nat -> string)
      returns (ad: Anchor, err: Option<string>)
      modifies this`inner
      ensures var id := MaskId(rnd);
              var idx := LastIndexOf(doc.images, img);
        && (idx == -1 ==> err == Some(NoImageError) && ad == BaseAnchor(id))
        && (idx >= 0 && ridForIndex(idx) == "" ==> err == Some(NoRelationError) && ad == BaseAnchor(id))
        && (idx >= 0 && ridForIndex(idx) != "" ==>
              err == None && ad == BaseAnchor(id).(pic := Some(Pic(id, ridForIndex(idx)))))
      ensures inner == old(inner) + [DrawingEntry(ad)]
      ensures ad.docPrId <= 0x7FFF_FFFF
      ensures ad.pic.Some? ==> ad.pic.value.cNvPrId == ad.docPrId
      ensures AnchorsOf(inner) == old(AnchorsOf(inner)) + [ad]
      ensures TextOf(inner) == old(TextOf(inner))
    {
      var k := NewIC();
      var id := MaskId(rnd);
      ad := BaseAnchor(id);
      inner := inner[k := inner[k].(drawing := Some(Drawing([ad])))];
      assert AnchorsOf([DrawingEntry(ad)]) == [ad] by {
        assert [DrawingEntry(ad)][..0] == [];
      }
      AnchorsOfConcat(old(inner), [DrawingEntry(ad)]);
      TextOfAppend(old(inner), [DrawingEntry(ad)]);

      var idx := FindImageIndex(img);
      if idx == -1 {
        return ad, Some(NoImageError);
      }
      var rid := ridForIndex(idx);
      if rid == "" {
        return ad, Some(NoRelationError);
      }
      // the anchor already in the entry is the one the picture is attached to
      ad := ad.(pic := Some(Pic(id, rid)));
      inner := inner[k := inner[k].(drawing := Some(Drawing([ad])))];
      assert AnchorsOf([DrawingEntry(ad)]) == [ad] by {
        assert [DrawingEntry(ad)][..0] == [];
      }
      AnchorsOfConcat(old(inner), [DrawingEntry(ad)]);
      TextOfAppend(old(inner), [DrawingEntry(ad)]);
      err := None;
    }
  }
}
