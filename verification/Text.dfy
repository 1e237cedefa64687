/** Character classes of the C locale, and the string helpers shared by the parser and the engine. */
module Text {

  datatype Option<+T> = None | Some(value: T)

  /** std::isspace in the C locale: space, and the controls from tab to carriage return. */
  predicate IsSpace(c: char) {
    c == ' ' || 9 <= c as int <= 13
  }

  lemma SpacesAreSix(c: char)
    ensures IsSpace(c) <==> c in [' ', '\t', '\n', '\U{0B}', '\U{0C}', '\r']
  {
  }

  /** ::tolower in the C locale. */
  function LowerChar(c: char): char {
    if 'A' <= c <= 'Z' then (c as int + 32) as char else c
  }

  function Lower(s: string): (r: string)
    ensures |r| == |s|
    ensures forall i :: 0 <= i < |s| ==> r[i] == LowerChar(s[i])
  {
    seq(|s|, i requires 0 <= i < |s| => LowerChar(s[i]))
  }

  function LowerAll(ss: seq<string>): (r: seq<string>)
    ensures |r| == |ss|
    ensures forall i :: 0 <= i < |ss| ==> r[i] == Lower(ss[i])
  {
    seq(|ss|, i requires 0 <= i < |ss| => Lower(ss[i]))
  }

  /** Lower-casing never creates or removes a space, a quote or a backslash. */
  lemma LowerCharKeepsClass(c: char)
    ensures IsSpace(LowerChar(c)) == IsSpace(c)
    ensures LowerChar(c) == '"' <==> c == '"'
    ensures LowerChar(c) == '\\' <==> c == '\\'
    ensures LowerChar(LowerChar(c)) == LowerChar(c)
  {
  }

  /** Lower-casing letter by letter, and nothing but letters. */
  lemma LowerLetters(c: char)
    ensures forall i :: 0 <= i < 26 ==>
              LowerChar("ABCDEFGHIJKLMNOPQRSTUVWXYZ"[i]) == "abcdefghijklmnopqrstuvwxyz"[i]
    ensures c !in "ABCDEFGHIJKLMNOPQRSTUVWXYZ" ==> LowerChar(c) == c
  {
    var upper := "ABCDEFGHIJKLMNOPQRSTUVWXYZ";
    assert forall i :: 0 <= i < 26 ==> upper[i] as int == 65 + i;
    assert forall i :: 0 <= i < 26 ==> "abcdefghijklmnopqrstuvwxyz"[i] as int == 97 + i;
    if 'A' <= c <= 'Z' {
      assert upper[c as int - 65] == c;
    }
  }

  lemma LowerIdempotent(s: string)
    ensures Lower(Lower(s)) == Lower(s)
  {
    forall i | 0 <= i < |s| ensures Lower(Lower(s))[i] == Lower(s)[i] {
      LowerCharKeepsClass(s[i]);
    }
  }

  /** The words with `separator` between neighbours. */
  function Joined(words: seq<string>, separator: string): string {
    if |words| == 0 then ""
    else if |words| == 1 then words[0]
    else words[0] + separator + Joined(words[1..], separator)
  }

  /** Joining from the right: how a loop that appends builds the same string. */
  lemma {:induction false} JoinedAppend(words: seq<string>, separator: string, last: string)
    ensures Joined(words + [last], separator)
         == if |words| == 0 then last else Joined(words, separator) + separator + last
  {
    if |words| > 1 {
      assert (words + [last])[1..] == words[1..] + [last];
      JoinedAppend(words[1..], separator, last);
    } else if |words| == 1 {
      assert (words + [last])[1..] == [last];
    }
  }

  lemma Regroup(a: string, b: string, c: string, d: string)
    ensures a + b + (c + d) == a + b + c + d
    ensures a + (b + c + d) == a + b + c + d
  {
  }

  lemma {:induction false} JoinedSplit(words: seq<string>, separator: string, i: nat)
    requires 0 < i < |words|
    ensures Joined(words, separator) == Joined(words[..i], separator) + separator + Joined(words[i..], separator)
  {
    if i == 1 {
      assert words[..1] == [words[0]];
    } else {
      JoinedSplit(words[1..], separator, i - 1);
      var mid := Joined(words[1..i], separator);
      assert words[1..][..i - 1] == words[1..i] && words[1..][i - 1..] == words[i..];
      assert words[..i][1..] == words[1..i] && |words[..i]| > 1;
      assert Joined(words[..i], separator) == words[0] + separator + mid;
      var head := words[0] + separator;
      assert head + (mid + separator + Joined(words[i..], separator)) == head + mid + separator + Joined(words[i..], separator) by {
        Regroup(head, mid, separator, Joined(words[i..], separator));
      }
    }
  }

  /** Where the i-th word stands: after the earlier words and a separator, before a separator and the
      later ones. */
  lemma JoinedAround(words: seq<string>, separator: string, i: nat)
    requires i < |words|
    ensures Joined(words, separator)
         == (if i == 0 then "" else Joined(words[..i], separator) + separator)
            + words[i]
            + (if i == |words| - 1 then "" else separator + Joined(words[i + 1..], separator))
  {
    var rest := words[i..];
    var after := if i == |words| - 1 then "" else separator + Joined(words[i + 1..], separator);
    assert Joined(rest, separator) == words[i] + after by {
      assert rest[0] == words[i] && rest[1..] == words[i + 1..];
      assert |rest| == 1 ==> words[i] + "" == words[i];
      assert |rest| > 1 ==> words[i] + separator + Joined(rest[1..], separator) == words[i] + (separator + Joined(rest[1..], separator));
    }
    if i > 0 {
      JoinedSplit(words, separator, i);
      Regroup(Joined(words[..i], separator), separator, words[i], after);
    } else {
      assert rest == words && "" + words[i] == words[i];
    }
  }

  /** Total number of characters in a list of words. */
  function TotalLength(words: seq<string>): nat {
    if |words| == 0 then 0 else |words[0]| + TotalLength(words[1..])
  }

  lemma {:induction false} TotalLengthAppend(words: seq<string>, last: string)
    ensures TotalLength(words + [last]) == TotalLength(words) + |last|
  {
    if |words| > 0 {
      assert (words + [last])[1..] == words[1..] + [last];
      TotalLengthAppend(words[1..], last);
    }
  }

  lemma {:induction false} JoinedLength(words: seq<string>, separator: string)
    ensures |Joined(words, separator)|
         == TotalLength(words) + if |words| == 0 then 0 else (|words| - 1) * |separator|
  {
    if |words| > 1 {
      JoinedLength(words[1..], separator);
      assert |words[1..]| == |words| - 1;
      assert |separator| + (|words| - 2) * |separator| == (|words| - 1) * |separator|;
    }
  }
}
