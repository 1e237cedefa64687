/**
 The language the scanner of src/core/command_parser.cpp accepts, as a grammar: gaps, plain and escaped
 characters, and quotations. Every text has a reading, and its tokens are the words of that reading.
 */
module Grammar {
  import opened Text
  import opened Tokenizer

  /** A character between quotes: itself, or escaped. */
  datatype Inner = Raw(c: char) | EscapedInside(c: char)

  /** A gap between words, a character of a word, or a quoted stretch of one. */
  datatype Item = Gap(c: char) | Bare(c: char) | Escape(c: char) | Quotation(inside: seq<Inner>)

  predicate InnerOk(i: Inner) {
    i.Raw? ==> i.c != '"' && i.c != '\\'
  }

  predicate ItemOk(item: Item) {
    match item
    case Gap(c) => IsSpace(c)
    case Bare(c) => PlainChar(c)
    case Escape(_) => true
    case Quotation(inside) => forall j :: 0 <= j < |inside| ==> InnerOk(inside[j])
  }

  function SpelledInside(inside: seq<Inner>): string {
    if |inside| == 0 then ""
    else SpelledInside(inside[..|inside| - 1])
         + match inside[|inside| - 1] case Raw(c) => [c] case EscapedInside(c) => ['\\', c]
  }

  function SpelledItem(item: Item): string {
    match item
    case Gap(c) => [c]
    case Bare(c) => [c]
    case Escape(c) => ['\\', c]
    case Quotation(inside) => "\"" + SpelledInside(inside) + "\""
  }

  function Spelled(items: seq<Item>): string {
    if |items| == 0 then "" else Spelled(items[..|items| - 1]) + SpelledItem(items[|items| - 1])
  }

  /** The characters an item contributes to its word. */
  function Letters(item: Item): string
    requires !item.Gap?
  {
    match item
    case Bare(c) => [c]
    case Escape(c) => [c]
    case Quotation(inside) => seq(|inside|, j requires 0 <= j < |inside| => inside[j].c)
  }

  /** The items split at the gaps, empty words included: never an empty list. */
  function SplitAtGaps(items: seq<Item>): (words: seq<string>)
    ensures |words| > 0
  {
    if |items| == 0 then [""]
    else
      var words, last := SplitAtGaps(items[..|items| - 1]), items[|items| - 1];
      if last.Gap? then words + [""]
      else words[..|words| - 1] + [words[|words| - 1] + Letters(last)]
  }

  predicate ItemsOk(items: seq<Item>) {
    forall i :: 0 <= i < |items| ==> ItemOk(items[i])
  }

  lemma {:induction false} ScanInside(s: Scanner, inside: seq<Inner>)
    requires s.inQuotes && !s.escapeNext && forall j :: 0 <= j < |inside| ==> InnerOk(inside[j])
    ensures Scan(s, SpelledInside(inside)) == s.(current := s.current + Letters(Quotation(inside)))
    decreases |inside|
  {
    var letters := Letters(Quotation(inside));
    if |inside| == 0 {
      assert s.current + letters == s.current;
    } else {
      var shorter, last := inside[..|inside| - 1], inside[|inside| - 1];
      ScanInside(s, shorter);
      var s1 := s.(current := s.current + Letters(Quotation(shorter)));
      assert InnerOk(last);
      if last.Raw? {
        ScanSnoc(s, SpelledInside(shorter), last.c);
      } else {
        ScanSnoc(s, SpelledInside(shorter), '\\');
        ScanSnoc(s, SpelledInside(shorter) + ['\\'], last.c);
        assert SpelledInside(inside) == SpelledInside(shorter) + ['\\'] + [last.c];
      }
      assert letters == Letters(Quotation(shorter)) + [last.c];
      assert s.current + letters == s1.current + [last.c];
    }
  }

  lemma ScanItem(s: Scanner, item: Item)
    requires Neutral(s) && ItemOk(item) && !item.Gap?
    ensures Scan(s, SpelledItem(item)) == s.(current := s.current + Letters(item))
  {
    match item
    case Bare(c) => ScanOne(s, c);
    case Escape(c) =>
      assert ['\\', c] == ['\\'] + [c];
      ScanSnoc(s, ['\\'], c);
      ScanOne(s, '\\');
    case Quotation(inside) =>
      var within := s.(inQuotes := true);
      ScanConcat(s, "\"", SpelledInside(inside));
      ScanOne(s, '"');
      ScanInside(within, inside);
      ScanSnoc(s, "\"" + SpelledInside(inside), '"');
  }

  lemma {:induction false} NonEmptyOfSnoc(words: seq<string>, last: string)
    ensures NonEmptyOf(words + [last]) == NonEmptyOf(words) + if last == "" then [] else [last]
  {
    if |words| > 0 {
      assert (words + [last])[1..] == words[1..] + [last];
      NonEmptyOfSnoc(words[1..], last);
    }
  }

  /** The scan of a spelled list: the words before the last are closed, the last is open. */
  lemma {:induction false} ScanItems(items: seq<Item>)
    requires ItemsOk(items)
    ensures var words := SplitAtGaps(items);
            Scan(START, Spelled(items)) == Scanner(NonEmptyOf(words[..|words| - 1]), words[|words| - 1], false, false)
  {
    if |items| == 0 {
      assert [""][..0] == [];
    } else {
      var shorter, last := items[..|items| - 1], items[|items| - 1];
      ScanItems(shorter);
      ScanConcat(START, Spelled(shorter), SpelledItem(last));
      var before, words := SplitAtGaps(shorter), SplitAtGaps(items);
      assert ItemOk(last);
      if last.Gap? {
        ScanOne(Scan(START, Spelled(shorter)), last.c);
        assert words[..|words| - 1] == before == before[..|before| - 1] + [before[|before| - 1]];
        NonEmptyOfSnoc(before[..|before| - 1], before[|before| - 1]);
      } else {
        ScanItem(Scan(START, Spelled(shorter)), last);
        assert words[..|words| - 1] == before[..|before| - 1];
      }
    }
  }

  /** A text spelled from gaps, plain and escaped characters and quotations reads as its words. */
  lemma SpelledReads(items: seq<Item>)
    requires ItemsOk(items)
    ensures Tokens(Spelled(items)) == NonEmptyOf(SplitAtGaps(items))
  {
    ScanItems(items);
    var words := SplitAtGaps(items);
    NonEmptyOfSnoc(words[..|words| - 1], words[|words| - 1]);
    assert words == words[..|words| - 1] + [words[|words| - 1]];
  }

  /** What may be left over at the end of a text: an unclosed quotation, a lone backslash. */
  datatype Reading = Reading(items: seq<Item>, unclosed: Option<seq<Inner>>, loneBackslash: bool)

  predicate ReadingOk(r: Reading) {
    ItemsOk(r.items)
    && (r.unclosed.Some? ==> forall j :: 0 <= j < |r.unclosed.value| ==> InnerOk(r.unclosed.value[j]))
  }

  function SpelledReading(r: Reading): string {
    Spelled(r.items) + (if r.unclosed.Some? then "\"" + SpelledInside(r.unclosed.value) else "")
    + if r.loneBackslash then "\\" else ""
  }

  /** The words of a reading: an unclosed quotation counts as closed, a lone backslash as nothing. */
  function WordsOf(r: Reading): seq<string> {
    NonEmptyOf(SplitAtGaps(if r.unclosed.Some? then r.items + [Quotation(r.unclosed.value)] else r.items))
  }

  /** One more character of a text. */
  function Further(r: Reading, c: char): Reading {
    if r.loneBackslash then
      if r.unclosed.Some? then r.(unclosed := Some(r.unclosed.value + [EscapedInside(c)]), loneBackslash := false)
      else r.(items := r.items + [Escape(c)], loneBackslash := false)
    else if c == '\\' then r.(loneBackslash := true)
    else if r.unclosed.Some? then
      if c == '"' then r.(items := r.items + [Quotation(r.unclosed.value)], unclosed := None)
      else r.(unclosed := Some(r.unclosed.value + [Raw(c)]))
    else if c == '"' then r.(unclosed := Some([]))
    else if IsSpace(c) then r.(items := r.items + [Gap(c)])
    else r.(items := r.items + [Bare(c)])
  }

  lemma SpelledSnoc(items: seq<Item>, item: Item)
    ensures Spelled(items + [item]) == Spelled(items) + SpelledItem(item)
  {
    assert (items + [item])[..|items|] == items;
  }

  lemma SpelledInsideSnoc(inside: seq<Inner>, i: Inner)
    ensures SpelledInside(inside + [i])
         == SpelledInside(inside) + match i case Raw(c) => [c] case EscapedInside(c) => ['\\', c]
  {
    assert (inside + [i])[..|inside|] == inside;
  }

  lemma FurtherOutside(r: Reading, c: char)
    requires ReadingOk(r) && r.unclosed.None?
    ensures ReadingOk(Further(r, c)) && SpelledReading(Further(r, c)) == SpelledReading(r) + [c]
  {
    var r' := Further(r, c);
    if |r'.items| > |r.items| {
      SpelledSnoc(r.items, r'.items[|r.items|]);
    }
  }

  /** A longer quotation, and a closed one, as text. */
  lemma QuotationText(before: string, inside: string, more: string)
    ensures before + ("\"" + (inside + more)) + "" == before + ("\"" + inside) + more
    ensures before + ("\"" + inside + more) + "" + "" == before + ("\"" + inside) + more
    ensures before + ("\"" + inside) + "" == before + ("\"" + inside)
  {
  }

  lemma FurtherInside(r: Reading, c: char)
    requires ReadingOk(r) && r.unclosed.Some?
    ensures ReadingOk(Further(r, c)) && SpelledReading(Further(r, c)) == SpelledReading(r) + [c]
  {
    var before, inside := Spelled(r.items), r.unclosed.value;
    if r.loneBackslash {
      SpelledInsideSnoc(inside, EscapedInside(c));
      QuotationText(before, SpelledInside(inside), ['\\', c]);
      var q := before + ("\"" + SpelledInside(inside));
      assert q + "\\" + [c] == q + ['\\', c];
    } else if c == '"' {
      SpelledSnoc(r.items, Quotation(inside));
      QuotationText(before, SpelledInside(inside), "\"");
    } else if c == '\\' {
      QuotationText(before, SpelledInside(inside), "");
    } else {
      SpelledInsideSnoc(inside, Raw(c));
      QuotationText(before, SpelledInside(inside), [c]);
    }
  }

  lemma FurtherSpells(r: Reading, c: char)
    requires ReadingOk(r)
    ensures ReadingOk(Further(r, c)) && SpelledReading(Further(r, c)) == SpelledReading(r) + [c]
  {
    if r.unclosed.Some? {
      FurtherInside(r, c);
    } else {
      FurtherOutside(r, c);
    }
  }

  /** Every text has a reading. */
  lemma {:induction false} EveryTextHasAReading(text: string) returns (r: Reading)
    ensures ReadingOk(r) && SpelledReading(r) == text
  {
    if text == "" {
      r := Reading([], None, false);
    } else {
      var shorter := EveryTextHasAReading(text[..|text| - 1]);
      FurtherSpells(shorter, text[|text| - 1]);
      r := Further(shorter, text[|text| - 1]);
      assert text == text[..|text| - 1] + [text[|text| - 1]];
    }
  }

  lemma LoneBackslashIsDropped(s: Scanner)
    requires !s.escapeNext
    ensures Flush(Step(s, '\\')) == Flush(s)
  {
  }

  lemma ClosingQuoteMayBeMissing(items: seq<Item>, inside: seq<Inner>)
    requires ItemsOk(items + [Quotation(inside)])
    ensures var s := Scan(START, Spelled(items) + ("\"" + SpelledInside(inside)));
            !s.escapeNext && Flush(s) == Tokens(Spelled(items + [Quotation(inside)]))
  {
    var text := Spelled(items) + ("\"" + SpelledInside(inside));
    assert (items + [Quotation(inside)])[..|items|] == items;
    assert ItemOk((items + [Quotation(inside)])[|items|]);
    assert ItemsOk(items) by {
      assert forall i :: 0 <= i < |items| ==> items[i] == (items + [Quotation(inside)])[i];
    }
    ScanItems(items);
    var s0 := Scan(START, Spelled(items));
    ScanConcat(START, Spelled(items), "\"" + SpelledInside(inside));
    ScanConcat(s0, "\"", SpelledInside(inside));
    ScanOne(s0, '"');
    ScanInside(s0.(inQuotes := true), inside);
    ScanSnoc(START, text, '"');
    assert Spelled(items + [Quotation(inside)]) == text + ['"'];
  }

  lemma ReadsWithoutBackslash(r: Reading)
    requires ReadingOk(r) && !r.loneBackslash
    ensures Tokens(SpelledReading(r)) == WordsOf(r) && !Scan(START, SpelledReading(r)).escapeNext
  {
    if r.unclosed.Some? {
      var text := Spelled(r.items) + ("\"" + SpelledInside(r.unclosed.value));
      assert SpelledReading(r) == text;
      ClosingQuoteMayBeMissing(r.items, r.unclosed.value);
      SpelledReads(r.items + [Quotation(r.unclosed.value)]);
    } else {
      assert SpelledReading(r) == Spelled(r.items);
      ScanItems(r.items);
      SpelledReads(r.items);
    }
  }

  /** The tokens of every text are the words of its reading, however it was read. */
  lemma EveryTextReads(r: Reading)
    requires ReadingOk(r)
    ensures Tokens(SpelledReading(r)) == WordsOf(r)
  {
    var closed := r.(loneBackslash := false);
    ReadsWithoutBackslash(closed);
    if r.loneBackslash {
      var text := SpelledReading(closed);
      assert SpelledReading(r) == text + ['\\'];
      ScanSnoc(START, text, '\\');
      LoneBackslashIsDropped(Scan(START, text));
    }
  }
}
