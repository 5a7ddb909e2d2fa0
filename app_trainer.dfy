/** app_trainer.py: the trainer app's own vocabulary reader
    (`parse_vocab_lines`, one `word;translation` per line) and its simple
    PDF builder (`build_trainer_pdf`, one page per word, the uploaded
    images used in turn). A page is the value of what is drawn on it. */
module AppTrainer {
  import opened Wrappers
  import opened SeqUtil
  import opened PyStr
  import PyInt
  import PdfEngine
  import Arith

  /** A vocabulary item: `(word, translation)`. */
  type Item = (string, string)

  // ---------------------------------------------------------------------
  // parse_vocab_lines
  // ---------------------------------------------------------------------

  /** `[p.strip() for p in parts]`. */
  function StrippedParts(parts: seq<string>): seq<string> {
    seq(|parts|, k requires 0 <= k < |parts| => Strip(parts[k]))
  }

  /** What the loop appends for one line: nothing for a blank line; else
      the stripped first `;`-separated part and the other stripped parts
      joined again by `;` and stripped. */
  function ParseLine(line: string): Option<Item> {
    var s := Strip(line);
    if s == [] then None
    else
      var parts := StrippedParts(Split(s, ';'));
      if |parts| == 1 then Some((parts[0], ""))
      else Some((parts[0], Strip(Join(parts[1..], ';'))))
  }

  /** `parse_vocab_lines(raw)`, where `raw or ""` makes None read as the
      empty text. */
  function ParsedVocab(raw: Option<string>): seq<Item> {
    FilterMap(SplitLines(raw.GetOr("")), ParseLine)
  }

  /** `parse_vocab_lines(raw)`: the text split into lines, then the loop. */
  method ParseVocabLines(raw: Option<string>) returns (items: seq<Item>)
    ensures items == ParsedVocab(raw)
  {
    var text := if raw.Some? then raw.value else "";
    var lines := SplitLines(text);
    items := ParseLines(lines);
  }

  /** The loop of `parse_vocab_lines`: at most one item per line, in order. */
  method ParseLines(lines: seq<string>) returns (items: seq<Item>)
    ensures items == FilterMap(lines, ParseLine)
  {
    items := [];
    for i := 0 to |lines|
      invariant items == FilterMap(lines[..i], ParseLine)
    {
      var line := lines[i];
      FilterMapSnoc(lines[..i], line, ParseLine);
      assert lines[..i + 1] == lines[..i] + [line];
      var item := ParseOneLine(line);
      if item.Some? {
        items := items + [item.value];
      }
    }
    assert lines[..|lines|] == lines;
  }

  /** The body of the loop for one line: skip it when blank, else split it
      at `;` and strip the parts. */
  method ParseOneLine(line: string) returns (item: Option<Item>)
    ensures item == ParseLine(line)
  {
    var s := Strip(line);
    if s == [] {
      return None;
    }
    var parts := StrippedParts(Split(s, ';'));
    if |parts| == 1 {
      item := Some((parts[0], ""));
    } else {
      item := Some((parts[0], Strip(Join(parts[1..], ';'))));
    }
  }

  /** Every line of a text that is all whitespace is all whitespace. */
  lemma {:induction false} SplitLinesBlank(s: string)
    requires AllSpace(s)
    ensures forall k :: 0 <= k < |SplitLines(s)| ==> AllSpace(SplitLines(s)[k])
    decreases |s|
  {
    if s != [] {
      var i := LineEnd(s);
      if i < |s| {
        var width := BreakWidth(s, i);
        var rest := s[i + width..];
        assert AllSpace(rest) by {
          forall m | 0 <= m < |rest| ensures IsSpace(rest[m]) {
            assert rest[m] == s[i + width + m];
          }
        }
        SplitLinesBlank(rest);
        SplitLinesStep(s);
      }
    }
  }

  /** Nothing given, or only whitespace, gives no items. */
  lemma ParseBlank(raw: Option<string>)
    requires raw.None? || AllSpace(raw.value)
    ensures ParsedVocab(raw) == []
  {
    var lines := SplitLines(raw.GetOr(""));
    SplitLinesBlank(raw.GetOr(""));
    forall k | 0 <= k < |lines| ensures ParseLine(lines[k]) == None {
      StripEmptyIff(lines[k]);
    }
    FilterMapNone(lines, ParseLine);
  }

  /** The items come from the lines in order, at most one item per line,
      and each is what its line parses to; a line gives an item exactly
      when it is not blank. */
  lemma ParsedInLineOrder(raw: Option<string>)
    ensures var lines := SplitLines(raw.GetOr(""));
      var items := ParsedVocab(raw);
      var idx := Origins(lines, ParseLine);
      |items| <= |lines| && |idx| == |items| &&
      (forall j :: 0 <= j < |items| ==> idx[j] < |lines| && ParseLine(lines[idx[j]]) == Some(items[j])) &&
      (forall j, j' :: 0 <= j < j' < |items| ==> idx[j] < idx[j']) &&
      (forall k :: 0 <= k < |lines| ==> (ParseLine(lines[k]).Some? <==> !AllSpace(lines[k])))
  {
    var lines := SplitLines(raw.GetOr(""));
    forall k | 0 <= k < |lines| ensures ParseLine(lines[k]).Some? <==> !AllSpace(lines[k]) {
      StripEmptyIff(lines[k]);
    }
  }

  /** A part of the split line, stripped, never holds the separator. */
  lemma StrippedPartsNoSeparator(parts: seq<string>, c: char)
    requires forall p :: p in parts ==> c !in p
    ensures forall k :: 0 <= k < |StrippedParts(parts)| ==> c !in StrippedParts(parts)[k]
  {
    forall k | 0 <= k < |parts| ensures c !in Strip(parts[k]) {
      StripSlice(parts[k]);
      assert parts[k] in parts;
    }
  }

  /** A line parses, when it is not blank, to the stripped text before
      its first `;` and (when there is a `;`) the stripped parts after it
      joined by `;` and stripped; a line without `;` gives the stripped
      line and an empty translation. The word never holds a `;`. */
  lemma ParseLineIs(line: string)
    ensures var s := Strip(line);
      var i := IndexOf(s, ';');
      var r := ParseLine(line);
      (r.None? <==> s == []) &&
      (r.Some? ==> ';' !in r.value.0) &&
      (s != [] && i == |s| ==> r == Some((s, ""))) &&
      (i < |s| ==> r == Some((Strip(s[..i]), Strip(Join(StrippedParts(Split(s[i + 1..], ';')), ';')))))
  {
    var s := Strip(line);
    if s != [] {
      var i := IndexOf(s, ';');
      var split := Split(s, ';');
      var parts := StrippedParts(split);
      StrippedPartsNoSeparator(split, ';');
      if i == |s| {
        assert split == [s];
        StripIdempotent(line);
      } else {
        assert split == [s[..i]] + Split(s[i + 1..], ';');
        assert parts[1..] == StrippedParts(Split(s[i + 1..], ';'));
      }
    }
  }

  // ---------------------------------------------------------------------
  // build_trainer_pdf
  // ---------------------------------------------------------------------

  /** A box drawn with `draw_box`: its title and its rectangle. */
  datatype Box = Box(title: string, x: real, y: real, w: real, h: real)

  /** What one word page holds: the header, the word (at most 35
      characters), the translation (at most 60, only when there is one),
      the word, picture and notes boxes, and the upload embedded in the
      picture box, if any. */
  datatype TrainerPage = TrainerPage(header: string, word: string, translation: Option<string>,
                                     boxes: seq<Box>, image: Option<seq<bv8>>)

  const HEADER_H: real := 60.0
  const WORD_BOX_H: real := 120.0
  const IMG_BOX_H: real := 220.0
  const NOTES_H: real := 120.0
  const GAP: real := 16.0

  /** The three boxes of a word page: below the header the word box, then
      after a gap the picture box (titled "BILD" when there are images),
      then after a gap the notes box, all across the usable width. */
  function PageBoxes(spec: PdfEngine.PageSpec, withImages: bool): seq<Box> {
    var usableW := spec.pageW - 2.0 * spec.safe;
    var yWord := spec.pageH - spec.safe - HEADER_H;
    var yImg := yWord - WORD_BOX_H - GAP;
    var yNotes := yImg - IMG_BOX_H - GAP;
    [Box("WORT", spec.safe, yWord - WORD_BOX_H, usableW, WORD_BOX_H),
     Box(if withImages then "BILD" else "BILD (optional)", spec.safe, yImg - IMG_BOX_H, usableW, IMG_BOX_H),
     Box("NOTIZEN", spec.safe, yNotes - NOTES_H, usableW, NOTES_H)]
  }

  /** `f"Vokabel {i} / {len(vocab)}"`. */
  function Header(i: nat, n: nat): string {
    "Vokabel " + PyInt.NatToDecimal(i) + " / " + PyInt.NatToDecimal(n)
  }

  /** The page of the i-th item (counting from 1) of n, with the image the
      counter points at. */
  function WordPage(spec: PdfEngine.PageSpec, i: nat, n: nat, item: Item, withImages: bool,
                    image: Option<seq<bv8>>): TrainerPage {
    TrainerPage(Header(i, n), PdfEngine.Prefix(item.0, 35),
                if item.1 != [] then Some(PdfEngine.Prefix(item.1, 60)) else None,
                PageBoxes(spec, withImages), image)
  }

  /** The k-th upload in turn, none when there are no uploads. */
  function ImageAt(uploads: seq<seq<bv8>>, k: nat): Option<seq<bv8>> {
    if uploads == [] then None else Some(uploads[k % |uploads|])
  }

  /** The pages `build_trainer_pdf` draws. */
  function TrainerPages(vocab: seq<Item>, uploads: seq<seq<bv8>>, kdpMode: bool): (pages: seq<TrainerPage>)
  {
    var spec := PdfEngine.GetPageSpec(kdpMode);
    seq(|vocab|, k requires 0 <= k < |vocab| =>
      WordPage(spec, k + 1, |vocab|, vocab[k], uploads != [], ImageAt(uploads, k)))
  }

  /** The page loop of `build_trainer_pdf`: the image counter advances
      only on pages that embed an image. */
  method BuildTrainerPdf(vocab: seq<Item>, uploads: seq<seq<bv8>>, kdpMode: bool)
    returns (pages: seq<TrainerPage>)
    ensures pages == TrainerPages(vocab, uploads, kdpMode)
  {
    var spec := PdfEngine.GetPageSpec(kdpMode);
    var imgBuffers := uploads;
    var imgIdx := 0;
    pages := [];
    for i := 0 to |vocab|
      invariant |pages| == i
      invariant imgIdx == (if imgBuffers == [] then 0 else i)
      invariant forall k :: 0 <= k < i ==> pages[k] == TrainerPages(vocab, uploads, kdpMode)[k]
    {
      var (word, translation) := vocab[i];
      var image: Option<seq<bv8>> := None;
      if imgBuffers != [] {
        image := Some(imgBuffers[imgIdx % |imgBuffers|]);
        imgIdx := imgIdx + 1;
      }
      pages := pages + [WordPage(spec, i + 1, |vocab|, (word, translation), imgBuffers != [], image)];
    }
  }

  /** One page per item, numbered "Vokabel i / n", showing the item's
      word cut to 35 characters and its translation cut to 60 when there
      is one. */
  lemma PagePerItem(vocab: seq<Item>, uploads: seq<seq<bv8>>, kdpMode: bool)
    ensures var pages := TrainerPages(vocab, uploads, kdpMode);
      |pages| == |vocab| &&
      forall k :: 0 <= k < |vocab| ==>
        pages[k].header == Header(k + 1, |vocab|) &&
        |pages[k].word| <= 35 && vocab[k].0 == pages[k].word + vocab[k].0[|pages[k].word|..] &&
        (|vocab[k].0| <= 35 ==> pages[k].word == vocab[k].0) &&
        (pages[k].translation.Some? <==> vocab[k].1 != []) &&
        (pages[k].translation.Some? ==>
           |pages[k].translation.value| <= 60 &&
           vocab[k].1 == pages[k].translation.value + vocab[k].1[|pages[k].translation.value|..] &&
           (|vocab[k].1| <= 60 ==> pages[k].translation.value == vocab[k].1))
  {
  }

  /** Without uploads no page has an image; with uploads every page has
      one, used in turn: page k shows upload `k % len(uploads)`, so every
      upload appears once the pages are as many as the uploads. */
  lemma ImagesInTurn(vocab: seq<Item>, uploads: seq<seq<bv8>>, kdpMode: bool)
    ensures var pages := TrainerPages(vocab, uploads, kdpMode);
      (forall k :: 0 <= k < |pages| ==> (pages[k].image.Some? <==> uploads != [])) &&
      (forall k :: 0 <= k < |pages| && uploads != [] ==>
         pages[k].image == Some(uploads[k % |uploads|])) &&
      (|vocab| >= |uploads| ==>
         (forall u :: 0 <= u < |uploads| ==> pages[u].image == Some(uploads[u])))
  {
    var pages := TrainerPages(vocab, uploads, kdpMode);
    assert forall k :: 0 <= k < |pages| ==> pages[k].image == ImageAt(uploads, k);
    forall u | 0 <= u < |uploads| && |vocab| >= |uploads|
      ensures pages[u].image == Some(uploads[u])
    {
      Arith.ModUnique(u, |uploads|, 0, u);
      assert pages[u].image == ImageAt(uploads, u);
    }
  }

  /** On both page formats the three boxes lie inside the safe zone,
      across the full usable width. */
  lemma BoxesInsideSafeZone(kdpMode: bool, withImages: bool)
    ensures var spec := PdfEngine.GetPageSpec(kdpMode);
      forall b :: b in PageBoxes(spec, withImages) ==>
        b.x == spec.safe && b.x + b.w == spec.pageW - spec.safe && b.w > 0.0 &&
        spec.safe <= b.y && b.y + b.h <= spec.pageH - spec.safe - HEADER_H
  {
    PdfEngine.PageSpecValues(kdpMode);
  }
}
