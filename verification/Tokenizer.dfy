/**
 The quote-and-escape scanner of src/core/command_parser.cpp, and joinArgs, its partial inverse.

 `Step` is one turn of the scanning loop, `Scan` a whole text, `Tokens` the scan from the start
 followed by the final flush. The loops themselves are `Tokenize` and `JoinArgs`.
 */
module Tokenizer {
  import opened Text

  // ---------- the scanner ----------

  datatype Scanner = Scanner(tokens: seq<string>, current: string, inQuotes: bool, escapeNext: bool)

  const START := Scanner([], "", false, false)

  function Step(s: Scanner, c: char): Scanner {
    if s.escapeNext then s.(current := s.current + [c], escapeNext := false)
    else if c == '\\' then s.(escapeNext := true)
    else if c == '"' then s.(inQuotes := !s.inQuotes)
    else if IsSpace(c) && !s.inQuotes then
      if s.current != "" then s.(tokens := s.tokens + [s.current], current := "") else s
    else s.(current := s.current + [c])
  }

  function Scan(s: Scanner, text: string): Scanner
    decreases text
  {
    if text == "" then s else Scan(Step(s, text[0]), text[1..])
  }

  function Flush(s: Scanner): seq<string> {
    if s.current != "" then s.tokens + [s.current] else s.tokens
  }

  function Tokens(text: string): seq<string> {
    Flush(Scan(START, text))
  }

  /** Outside quotes, with no escape pending. */
  predicate Neutral(s: Scanner) {
    !s.inQuotes && !s.escapeNext
  }

  lemma {:induction false} ScanConcat(s: Scanner, a: string, b: string)
    ensures Scan(s, a + b) == Scan(Scan(s, a), b)
    decreases a
  {
    if a == "" {
      assert a + b == b;
    } else {
      assert (a + b)[1..] == a[1..] + b;
      ScanConcat(Step(s, a[0]), a[1..], b);
    }
  }

  lemma ScanOne(s: Scanner, c: char)
    ensures Scan(s, [c]) == Step(s, c)
  {
    assert [c][1..] == "";
  }

  lemma ScanSnoc(s: Scanner, a: string, c: char)
    ensures Scan(s, a + [c]) == Step(Scan(s, a), c)
  {
    ScanConcat(s, a, [c]);
    ScanOne(Scan(s, a), c);
  }

  /** Tokens already emitted never influence the rest of the scan. */
  lemma {:induction false} ScanKeepsEmitted(before: seq<string>, s: Scanner, text: string)
    ensures Scan(s.(tokens := before + s.tokens), text)
         == Scan(s, text).(tokens := before + Scan(s, text).tokens)
    decreases text
  {
    if text != "" {
      var c := text[0];
      assert before + s.tokens + [s.current] == before + (s.tokens + [s.current]);
      assert Step(s.(tokens := before + s.tokens), c)
          == Step(s, c).(tokens := before + Step(s, c).tokens);
      ScanKeepsEmitted(before, Step(s, c), text[1..]);
    }
  }

  // ---------- the loops ----------

  method Tokenize(text: string) returns (tokens: seq<string>)
    ensures tokens == Tokens(text)
  {
    tokens := [];
    var current, inQuotes, escapeNext := "", false, false;
    for i := 0 to |text|
      invariant Scanner(tokens, current, inQuotes, escapeNext) == Scan(START, text[..i])
    {
      var c := text[i];
      ScanSnoc(START, text[..i], c);
      assert text[..i + 1] == text[..i] + [c];
      if escapeNext {
        current := current + [c];
        escapeNext := false;
        continue;
      }
      if c == '\\' {
        escapeNext := true;
        continue;
      }
      if c == '"' {
        inQuotes := !inQuotes;
        continue;
      }
      if IsSpace(c) && !inQuotes {
        if current != "" {
          tokens := tokens + [current];
          current := "";
        }
      } else {
        current := current + [c];
      }
    }
    assert text[..|text|] == text;
    if current != "" {
      tokens := tokens + [current];
    }
  }

  method JoinArgs(args: seq<string>, startIndex: nat) returns (result: string)
    ensures result == Joined(if startIndex <= |args| then args[startIndex..] else [], " ")
  {
    result := "";
    var i := startIndex;
    while i < |args|
      invariant startIndex <= i
      invariant i <= |args| ==> result == Joined(args[startIndex..i], " ")
      invariant |args| < i ==> i == startIndex && result == ""
    {
      JoinedAppend(args[startIndex..i], " ", args[i]);
      assert args[startIndex..i + 1] == args[startIndex..i] + [args[i]];
      if i > startIndex {
        result := result + " ";
      }
      result := result + args[i];
      i := i + 1;
    }
    if startIndex <= |args| {
      assert args[startIndex..|args|] == args[startIndex..];
    }
  }

  // ---------- splitting at a space ----------

  /** Every emitted token has at least one character. */
  lemma {:induction false} TokensNonEmpty(s: Scanner, text: string)
    requires forall t :: t in s.tokens ==> t != ""
    ensures forall t :: t in Flush(Scan(s, text)) ==> t != ""
    decreases text
  {
    if text != "" {
      TokensNonEmpty(Step(s, text[0]), text[1..]);
    }
  }

  lemma SplitAfterNeutral(a: string, c: char, b: string)
    requires IsSpace(c) && Neutral(Scan(START, a))
    ensures Tokens(a + [c] + b) == Tokens(a) + Tokens(b)
  {
    var sa := Scan(START, a);
    ScanSnoc(START, a, c);
    assert Step(sa, c) == START.(tokens := Flush(sa) + START.tokens);
    ScanConcat(START, a + [c], b);
    ScanKeepsEmitted(Flush(sa), START, b);
    var sb := Scan(START, b);
    assert Flush(sa) + sb.tokens + [sb.current] == Flush(sa) + (sb.tokens + [sb.current]);
  }

  /** A space separates exactly when it is read outside quotes with no escape pending. */
  lemma SplitAtSpace(a: string, c: char)
    requires IsSpace(c)
    ensures (forall b :: Tokens(a + [c] + b) == Tokens(a) + Tokens(b)) <==> Neutral(Scan(START, a))
  {
    var sa := Scan(START, a);
    if Neutral(sa) {
      forall b ensures Tokens(a + [c] + b) == Tokens(a) + Tokens(b) {
        SplitAfterNeutral(a, c, b);
      }
    } else {
      ScanSnoc(START, a, c);
      assert a + [c] + "" == a + [c];
      assert Tokens(a + [c]) == sa.tokens + [sa.current + [c]];
      assert Tokens(a) + Tokens("") == Flush(sa);
      assert |Flush(sa)| == |sa.tokens| + 1 ==> Flush(sa)[|sa.tokens|] == sa.current;
      assert Tokens(a + [c] + "") != Tokens(a) + Tokens("");
    }
  }

  // ---------- tokenizing what joinArgs produced ----------

  predicate PlainChar(c: char) {
    !IsSpace(c) && c != '"' && c != '\\'
  }

  /** Something the scanner reads back as itself: non-empty, no space, quote or backslash. */
  predicate Plain(word: string) {
    word != "" && forall i :: 0 <= i < |word| ==> PlainChar(word[i])
  }

  lemma {:induction false} ScanPlainChars(s: Scanner, word: string)
    requires Neutral(s)
    requires forall i :: 0 <= i < |word| ==> PlainChar(word[i])
    ensures Scan(s, word) == s.(current := s.current + word)
    decreases word
  {
    if word != "" {
      ScanPlainChars(Step(s, word[0]), word[1..]);
      assert s.current + [word[0]] + word[1..] == s.current + word;
    } else {
      assert s.current + word == s.current;
    }
  }

  lemma {:induction false} PlainSurvives(args: seq<string>)
    requires forall i :: 0 <= i < |args| ==> Plain(args[i])
    ensures Tokens(Joined(args, " ")) == args
  {
    if |args| > 0 {
      ScanPlainChars(START, args[0]);
      assert "" + args[0] == args[0];
      if |args| > 1 {
        SplitAfterNeutral(args[0], ' ', Joined(args[1..], " "));
        PlainSurvives(args[1..]);
      }
    }
  }

  /** Characters kept so far plus tokens closed so far: a step adds at most one. */
  function Credit(s: Scanner): nat {
    TotalLength(s.tokens) + |s.current| + |s.tokens|
  }

  lemma StepCredit(s: Scanner, c: char)
    ensures Credit(Step(s, c)) <= Credit(s) + 1
    ensures !s.escapeNext && (c == '"' || c == '\\') ==> Credit(Step(s, c)) == Credit(s)
  {
    TotalLengthAppend(s.tokens, s.current);
  }

  lemma {:induction false} ScanCredit(s: Scanner, text: string)
    ensures Credit(Scan(s, text)) <= Credit(s) + |text|
    decreases text
  {
    if text != "" {
      StepCredit(s, text[0]);
      ScanCredit(Step(s, text[0]), text[1..]);
    }
  }

  function SpaceCount(text: string): nat {
    if text == "" then 0 else (if IsSpace(text[0]) then 1 else 0) + SpaceCount(text[1..])
  }

  /** A scan that wastes no character met no quote and no backslash, and closed a token at every space. */
  lemma {:induction false} FullCredit(s: Scanner, text: string)
    requires Neutral(s)
    requires Credit(Scan(s, text)) == Credit(s) + |text|
    ensures forall i :: 0 <= i < |text| ==> text[i] != '"' && text[i] != '\\'
    ensures |Scan(s, text).tokens| == |s.tokens| + SpaceCount(text)
    decreases text
  {
    if text != "" {
      StepCredit(s, text[0]);
      ScanCredit(Step(s, text[0]), text[1..]);
      FullCredit(Step(s, text[0]), text[1..]);
    }
  }

  lemma {:induction false} SpaceCountConcat(a: string, b: string)
    ensures SpaceCount(a + b) == SpaceCount(a) + SpaceCount(b)
  {
    if a == "" {
      assert a + b == b;
    } else {
      assert (a + b)[1..] == a[1..] + b;
      SpaceCountConcat(a[1..], b);
    }
  }

  lemma {:induction false} SpaceCountZero(a: string)
    ensures SpaceCount(a) == 0 ==> forall i :: 0 <= i < |a| ==> !IsSpace(a[i])
  {
    if a != "" {
      SpaceCountZero(a[1..]);
      assert forall i :: 1 <= i < |a| ==> a[i] == a[1..][i - 1];
    }
  }

  /** With no spare space in the joined text, no word holds a space, a quote or a backslash. */
  lemma {:induction false} JoinedSpaces(words: seq<string>)
    requires |words| > 0
    ensures SpaceCount(Joined(words, " ")) >= |words| - 1
    ensures SpaceCount(Joined(words, " ")) == |words| - 1 ==>
              forall i :: 0 <= i < |words| ==> SpaceCount(words[i]) == 0
    ensures forall i, j :: 0 <= i < |words| && 0 <= j < |words[i]| ==> words[i][j] in Joined(words, " ")
  {
    if |words| > 1 {
      var rest := Joined(words[1..], " ");
      assert Joined(words, " ") == words[0] + " " + rest;
      SpaceCountConcat(words[0] + " ", rest);
      SpaceCountConcat(words[0], " ");
      assert SpaceCount(" ") == 1;
      JoinedSpaces(words[1..]);
      assert forall i :: 1 <= i < |words| ==> words[i] == words[1..][i - 1];
    }
  }

  /** A list that comes back from its joined text was scanned without waste. */
  lemma SurvivorsWasteNothing(args: seq<string>, end: Scanner)
    requires |args| > 0
    requires end == Scan(START, Joined(args, " "))
    requires Flush(end) == args
    ensures Credit(end) == |Joined(args, " ")| && |end.tokens| == |args| - 1
  {
    ScanCredit(START, Joined(args, " "));
    JoinedLength(args, " ");
    TotalLengthAppend(end.tokens, end.current);
  }

  lemma SurvivorsArePlain(args: seq<string>)
    requires Tokens(Joined(args, " ")) == args
    ensures forall i :: 0 <= i < |args| ==> Plain(args[i])
  {
    if |args| > 0 {
      var text := Joined(args, " ");
      SurvivorsWasteNothing(args, Scan(START, text));
      FullCredit(START, text);
      JoinedSpaces(args);
      TokensNonEmpty(START, text);
      forall i | 0 <= i < |args| ensures Plain(args[i]) {
        assert args[i] in args;
        SpaceCountZero(args[i]);
        forall j | 0 <= j < |args[i]| ensures PlainChar(args[i][j]) {
          assert args[i][j] in text;
        }
      }
    }
  }

  /** The round trip through joinArgs, exactly where it holds. */
  lemma JoinRoundTrip(args: seq<string>)
    ensures Tokens(Joined(args, " ")) == args <==> forall i :: 0 <= i < |args| ==> Plain(args[i])
  {
    if Tokens(Joined(args, " ")) == args {
      SurvivorsArePlain(args);
    }
    if forall i :: 0 <= i < |args| ==> Plain(args[i]) {
      PlainSurvives(args);
    }
  }

  // ---------- a printer the scanner inverts ----------

  function Escaped(token: string): string {
    if token == "" then ""
    else (if token[0] == '"' || token[0] == '\\' then ['\\', token[0]] else [token[0]]) + Escaped(token[1..])
  }

  function Quoted(token: string): string {
    "\"" + Escaped(token) + "\""
  }

  function Printed(tokens: seq<string>): string {
    Joined(seq(|tokens|, i requires 0 <= i < |tokens| => Quoted(tokens[i])), " ")
  }

  function NonEmptyOf(tokens: seq<string>): seq<string> {
    if |tokens| == 0 then []
    else (if tokens[0] == "" then [] else [tokens[0]]) + NonEmptyOf(tokens[1..])
  }

  lemma {:induction false} ScanEscaped(s: Scanner, token: string)
    requires s.inQuotes && !s.escapeNext
    ensures Scan(s, Escaped(token)) == s.(current := s.current + token)
    decreases token
  {
    if token == "" {
      assert s.current + token == s.current;
    } else {
      var c := token[0];
      var head := if c == '"' || c == '\\' then ['\\', c] else [c];
      assert Escaped(token) == head + Escaped(token[1..]);
      ScanConcat(s, head, Escaped(token[1..]));
      var s1 := s.(current := s.current + [c]);
      assert Scan(s, head) == s1 by {
        if |head| == 2 {
          assert head == ['\\'] + [c];
          ScanSnoc(s, ['\\'], c);
          ScanOne(s, '\\');
        } else {
          ScanOne(s, c);
        }
      }
      ScanEscaped(s1, token[1..]);
      assert s.current + [c] + token[1..] == s.current + token;
    }
  }

  lemma ScanQuoted(s: Scanner, token: string)
    requires Neutral(s)
    ensures Scan(s, Quoted(token)) == s.(current := s.current + token)
  {
    var inside := s.(inQuotes := true);
    ScanConcat(s, "\"" + Escaped(token), "\"");
    ScanConcat(s, "\"", Escaped(token));
    ScanOne(s, '"');
    ScanEscaped(inside, token);
    ScanOne(inside.(current := s.current + token), '"');
  }

  /** Printing then tokenizing loses exactly the empty tokens. */
  lemma {:induction false} PrintRoundTrip(tokens: seq<string>)
    ensures Tokens(Printed(tokens)) == NonEmptyOf(tokens)
  {
    if |tokens| > 0 {
      var quoted := seq(|tokens|, i requires 0 <= i < |tokens| => Quoted(tokens[i]));
      ScanQuoted(START, tokens[0]);
      assert "" + tokens[0] == tokens[0];
      if |tokens| > 1 {
        var rest := seq(|tokens[1..]|, i requires 0 <= i < |tokens[1..]| => Quoted(tokens[1..][i]));
        assert quoted[1..] == rest;
        SplitAfterNeutral(Quoted(tokens[0]), ' ', Printed(tokens[1..]));
        PrintRoundTrip(tokens[1..]);
      } else {
        assert Printed(tokens) == Quoted(tokens[0]);
        assert tokens[1..] == [];
      }
    }
  }

  lemma {:induction false} NonEmptyOfAll(tokens: seq<string>)
    ensures (forall i :: 0 <= i < |tokens| ==> tokens[i] != "") <==> NonEmptyOf(tokens) == tokens
    ensures |NonEmptyOf(tokens)| <= |tokens|
  {
    if |tokens| > 0 {
      NonEmptyOfAll(tokens[1..]);
      assert tokens == [tokens[0]] + tokens[1..];
      if forall i :: 0 <= i < |tokens| ==> tokens[i] != "" {
        assert forall i :: 0 <= i < |tokens[1..]| ==> tokens[1..][i] == tokens[i + 1];
      }
      if NonEmptyOf(tokens) == tokens {
        assert tokens[0] != "";
        assert NonEmptyOf(tokens)[1..] == NonEmptyOf(tokens[1..]);
        assert forall i :: 1 <= i < |tokens| ==> tokens[i] == tokens[1..][i - 1];
      }
    }
  }

  /** A list is the tokenization of some text exactly when none of its tokens is empty. */
  lemma TokenListsAreNonEmptyLists(tokens: seq<string>)
    ensures (exists text :: Tokens(text) == tokens) <==> forall i :: 0 <= i < |tokens| ==> tokens[i] != ""
  {
    if forall i :: 0 <= i < |tokens| ==> tokens[i] != "" {
      PrintRoundTrip(tokens);
      NonEmptyOfAll(tokens);
      assert Tokens(Printed(tokens)) == tokens;
    }
    forall text | Tokens(text) == tokens ensures forall i :: 0 <= i < |tokens| ==> tokens[i] != "" {
      TokensNonEmpty(START, text);
      assert forall i :: 0 <= i < |tokens| ==> tokens[i] in tokens;
    }
  }

  // ---------- letter case ----------

  function LowerScanner(s: Scanner): Scanner {
    s.(tokens := LowerAll(s.tokens), current := Lower(s.current))
  }

  lemma StepLower(s: Scanner, c: char)
    ensures Step(LowerScanner(s), LowerChar(c)) == LowerScanner(Step(s, c))
  {
    LowerCharKeepsClass(c);
    assert Lower(s.current + [c]) == Lower(s.current) + [LowerChar(c)];
    assert LowerAll(s.tokens + [s.current]) == LowerAll(s.tokens) + [Lower(s.current)];
    assert Lower("") == "";
  }

  lemma {:induction false} ScanLower(s: Scanner, text: string)
    ensures Scan(LowerScanner(s), Lower(text)) == LowerScanner(Scan(s, text))
    decreases text
  {
    if text != "" {
      StepLower(s, text[0]);
      assert Lower(text)[1..] == Lower(text[1..]);
      ScanLower(Step(s, text[0]), text[1..]);
    }
  }

  lemma TokensLower(text: string)
    ensures Tokens(Lower(text)) == LowerAll(Tokens(text))
  {
    ScanLower(START, text);
    assert LowerScanner(START) == START;
    var s := Scan(START, text);
    assert LowerAll(s.tokens + [s.current]) == LowerAll(s.tokens) + [Lower(s.current)];
  }

  // ---------- a backslash before every character ----------

  function Backslashed(word: string): string {
    if word == "" then "" else ['\\', word[0]] + Backslashed(word[1..])
  }

  function BackslashedAll(words: seq<string>): (r: seq<string>)
    ensures |r| == |words| && forall i :: 0 <= i < |words| ==> r[i] == Backslashed(words[i])
  {
    seq(|words|, i requires 0 <= i < |words| => Backslashed(words[i]))
  }

  lemma {:induction false} ScanBackslashed(s: Scanner, word: string)
    requires !s.escapeNext
    ensures Scan(s, Backslashed(word)) == s.(current := s.current + word)
    decreases word
  {
    if word == "" {
      assert s.current + word == s.current;
    } else {
      ScanConcat(s, ['\\', word[0]], Backslashed(word[1..]));
      assert ['\\', word[0]] == ['\\'] + [word[0]];
      ScanSnoc(s, ['\\'], word[0]);
      ScanOne(s, '\\');
      ScanBackslashed(s.(current := s.current + [word[0]]), word[1..]);
      assert s.current + [word[0]] + word[1..] == s.current + word;
    }
  }

  /** A backslash keeps whatever character follows it: words with every character escaped, outside
      quotes, come back as they were. */
  lemma {:induction false} BackslashedRoundTrip(words: seq<string>)
    ensures Tokens(Joined(BackslashedAll(words), " ")) == NonEmptyOf(words)
  {
    if |words| > 0 {
      ScanBackslashed(START, words[0]);
      assert "" + words[0] == words[0];
      if |words| > 1 {
        assert BackslashedAll(words)[1..] == BackslashedAll(words[1..]);
        SplitAfterNeutral(Backslashed(words[0]), ' ', Joined(BackslashedAll(words[1..]), " "));
        BackslashedRoundTrip(words[1..]);
      } else {
        assert words[1..] == [];
      }
    }
  }
}
