/**
 The paginated sound list of src/commands/sfx.lua: a page takes sounds greedily from its start index
 while the reply stays within the budget.

 Lua numbers of integer subtype are 64 bits wide and wrap, so the start index is computed modulo 2^64.
 */
module SoundList {
  import opened Text

  const HEADER := "Available sounds: "
  const BUDGET := 450
  const PAGE_STEP := 15

  const MIN_INTEGER := -0x8000_0000_0000_0000
  const MAX_INTEGER := 0x7fff_ffff_ffff_ffff
  const INTEGER_RANGE := 0x1_0000_0000_0000_0000

  newtype Integer = x: int | MIN_INTEGER <= x <= MAX_INTEGER

  datatype Reply = NoSounds | EmptyPage(page: Integer) | Listing(text: string) | ScriptError

  /** Two's-complement wrap-around of Lua integers. */
  function Wrap(n: int): (r: int)
    ensures MIN_INTEGER <= r <= MAX_INTEGER
    ensures MIN_INTEGER <= n <= MAX_INTEGER ==> r == n
  {
    (n - MIN_INTEGER) % INTEGER_RANGE + MIN_INTEGER
  }

  /** The 1-based index at which a page starts. */
  function StartIndex(page: Integer): int {
    Wrap(Wrap(Wrap(page as int - 1) * PAGE_STEP) + 1)
  }

  function Decimal(n: nat): (r: string)
    ensures |r| >= 1
  {
    if n < 10 then [('0' as int + n) as char] else Decimal(n / 10) + [('0' as int + n % 10) as char]
  }

  function Shown(n: int): string {
    if n >= 0 then Decimal(n) else "-" + Decimal(-n)
  }

  // ---------- the page ----------

  /** The reply text for these sounds, without the page information. */
  function Body(sounds: seq<string>): string {
    HEADER + Joined(sounds, ", ")
  }

  predicate Fits(sounds: seq<string>) {
    |Body(sounds)| <= BUDGET
  }

  /** `page` is the longest prefix of `rest` whose reply fits. */
  predicate GreedyPrefix(page: seq<string>, rest: seq<string>) {
    page <= rest && Fits(page) && (|page| < |rest| ==> !Fits(rest[..|page| + 1]))
  }

  function TotalPages(sounds: nat, onPage: nat): nat
    requires onPage > 0
  {
    (sounds + onPage - 1) / onPage
  }

  function PageInfo(page: Integer, totalPages: nat): string {
    if totalPages > 1 then " (Page " + Shown(page as int) + "/" + Decimal(totalPages) + ")" else ""
  }

  /** Whether the page begins inside the list, after it, or before its first sound. */
  predicate StartsInside(sounds: seq<string>, page: Integer) {
    1 <= StartIndex(page) <= |sounds|
  }

  lemma BodyGrows(sounds: seq<string>, next: string)
    ensures |Body(sounds + [next])| == |Body(sounds)| + (if |sounds| == 0 then 0 else 2) + |next|
  {
    JoinedAppend(sounds, ", ", next);
  }

  lemma {:induction false} FitsPrefix(sounds: seq<string>, k: nat)
    requires k <= |sounds|
    ensures |Body(sounds[..k])| <= |Body(sounds)|
    decreases |sounds| - k
  {
    if k == |sounds| {
      assert sounds[..k] == sounds;
    } else {
      assert sounds[..k + 1] == sounds[..k] + [sounds[k]];
      BodyGrows(sounds[..k], sounds[k]);
      FitsPrefix(sounds, k + 1);
    }
  }

  lemma {:induction false} GreedyPrefixExists(rest: seq<string>, k: nat)
    requires k <= |rest| && Fits(rest[..k])
    ensures exists page :: GreedyPrefix(page, rest)
    decreases |rest| - k
  {
    if k < |rest| && Fits(rest[..k + 1]) {
      GreedyPrefixExists(rest, k + 1);
    } else {
      assert GreedyPrefix(rest[..k], rest);
    }
  }

  /** The sounds shown on a page. */
  ghost function PageOf(sounds: seq<string>, page: Integer): (r: seq<string>)
    requires StartsInside(sounds, page)
    ensures GreedyPrefix(r, sounds[StartIndex(page) - 1..])
  {
    GreedyPrefixExists(sounds[StartIndex(page) - 1..], 0);
    var r :| GreedyPrefix(r, sounds[StartIndex(page) - 1..]); r
  }

  /** The greedy page is unique. */
  lemma GreedyIsUnique(a: seq<string>, b: seq<string>, rest: seq<string>)
    requires GreedyPrefix(a, rest) && GreedyPrefix(b, rest)
    ensures a == b
  {
    assert a == rest[..|a|] && b == rest[..|b|];
    if |a| < |b| {
      assert b[..|a| + 1] == rest[..|a| + 1];
      FitsPrefix(b, |a| + 1);
    } else if |b| < |a| {
      assert a[..|b| + 1] == rest[..|b| + 1];
      FitsPrefix(a, |b| + 1);
    }
  }

  /** The outcome of the `list` branch. Before the first sound there is only nil, which the script
      cannot measure. */
  ghost function ListReply(sounds: seq<string>, page: Integer): Reply {
    if sounds == [] then NoSounds
    else if StartIndex(page) < 1 then ScriptError
    else if StartIndex(page) > |sounds| || PageOf(sounds, page) == [] then EmptyPage(page)
    else
      var shown := PageOf(sounds, page);
      Listing(Body(shown) + PageInfo(page, TotalPages(|sounds|, |shown|)))
  }

  function ReplyText(reply: Reply): string {
    match reply
    case NoSounds => "No sounds found in directory: sounds"
    case EmptyPage(page) => "Page " + Shown(page as int) + " is empty. Try a lower page number."
    case Listing(text) => text
    case ScriptError => "Command error occured - check logs"
  }

  // ---------- the loop ----------

  method List(sounds: seq<string>, page: Integer) returns (reply: Reply)
    ensures reply == ListReply(sounds, page)
  {
    var shown: seq<string> := [];
    if |sounds| == 0 {
      return NoSounds;
    }
    var soundsAdded := 0;
    var startIndex := StartIndex(page);
    var currentLength := |HEADER|;
    var i := startIndex;
    while i <= |sounds|
      invariant startIndex <= i
      invariant startIndex < 1 ==> i == startIndex
      invariant i == startIndex + |shown| && soundsAdded == |shown|
      invariant startIndex > |sounds| ==> shown == []
      invariant StartsInside(sounds, page) ==>
                  i <= |sounds| + 1 && shown == sounds[startIndex - 1..i - 1] && Fits(shown)
      invariant currentLength == |Body(shown)|
    {
      if i < 1 {
        return ScriptError;
      }
      var soundName := sounds[i - 1];
      var testAddition := soundName;
      if soundsAdded > 0 {
        testAddition := ", " + soundName;
      }
      BodyGrows(shown, soundName);
      ghost var rest := sounds[startIndex - 1..];
      assert rest[..|shown|] == shown && rest[..|shown| + 1] == shown + [soundName];
      if currentLength + |testAddition| > BUDGET {
        assert GreedyPrefix(shown, rest);
        break;
      }
      shown := shown + [soundName];
      currentLength := currentLength + |testAddition|;
      soundsAdded := soundsAdded + 1;
      i := i + 1;
    }
    if StartsInside(sounds, page) {
      ghost var rest := sounds[startIndex - 1..];
      assert GreedyPrefix(shown, rest);
      GreedyIsUnique(shown, PageOf(sounds, page), rest);
    }
    if |shown| == 0 {
      return EmptyPage(page);
    }
    var response := HEADER + Joined(shown, ", ");
    var totalPages := TotalPages(|sounds|, soundsAdded);
    if totalPages > 1 {
      response := response + (" (Page " + Shown(page as int) + "/" + Decimal(totalPages) + ")");
    } else {
      assert response + "" == response;
    }
    return Listing(response);
  }

  // ---------- the reply never grows past a chat message ----------

  function PowerOfTen(k: nat): nat {
    if k == 0 then 1 else 10 * PowerOfTen(k - 1)
  }

  lemma {:induction false} DecimalLength(n: nat, k: nat)
    requires k > 0 && n < PowerOfTen(k)
    ensures |Decimal(n)| <= k
  {
    assert PowerOfTen(1) == 10;
    if n >= 10 {
      DecimalLength(n / 10, k - 1);
    }
  }

  lemma NineteenDigits()
    ensures PowerOfTen(19) == 10_000_000_000_000_000_000
  {
    assert PowerOfTen(3) == 1_000;
    assert PowerOfTen(6) == 1_000_000;
    assert PowerOfTen(9) == 1_000_000_000;
    assert PowerOfTen(12) == 1_000_000_000_000;
    assert PowerOfTen(15) == 1_000_000_000_000_000;
    assert PowerOfTen(18) == 1_000_000_000_000_000_000;
  }

  lemma ShownLength(n: Integer)
    ensures |Shown(n as int)| <= 20
  {
    NineteenDigits();
    DecimalLength(if n as int >= 0 then n as int else -(n as int), 19);
  }

  lemma MultiplicationKeepsOrder(x: int, y: int, m: int)
    requires m > 0
    ensures x <= y <==> x * m <= y * m
  {
    assert y * m - x * m == (y - x) * m;
  }

  lemma QuotientTimesDivisor(x: nat, m: nat)
    requires m > 0
    ensures (x / m) * m <= x
  {
  }

  lemma ProductBeatsSum(x: nat, y: nat)
    requires x > 0 && y > 0
    ensures x + y - 1 <= x * y
  {
    assert (x - 1) * (y - 1) == x * y - (x + y - 1);
  }

  lemma TotalPagesBound(sounds: nat, onPage: nat)
    requires 0 < onPage
    ensures TotalPages(sounds, onPage) <= sounds
  {
    if sounds > 0 {
      QuotientTimesDivisor(sounds + onPage - 1, onPage);
      ProductBeatsSum(sounds, onPage);
      MultiplicationKeepsOrder(TotalPages(sounds, onPage), sounds, onPage);
    }
  }

  lemma ProductGrows(q: nat, m: nat)
    ensures (q + 1) * m == q * m + m
  {
  }

  /** The page total is the quotient rounded up. */
  lemma TotalPagesRoundsUp(sounds: nat, onPage: nat, pages: nat)
    requires onPage > 0 && pages == TotalPages(sounds, onPage)
    ensures sounds <= pages * onPage < sounds + onPage
  {
    var x := sounds + onPage - 1;
    QuotientTimesDivisor(x, onPage);
    ProductGrows(pages, onPage);
    assert x < (x / onPage + 1) * onPage;
  }

  /** The page information takes at most 48 characters. */
  lemma PageInfoLength(page: Integer, totalPages: nat)
    requires totalPages <= MAX_INTEGER
    ensures |PageInfo(page, totalPages)| <= 48
  {
    ShownLength(page);
    NineteenDigits();
    DecimalLength(totalPages, 19);
  }

  /** Every reply, for every list and every page number Lua can hold, is under 500 characters. */
  lemma RepliesFitAChatMessage(sounds: seq<string>, page: Integer)
    requires |sounds| <= MAX_INTEGER
    ensures |ReplyText(ListReply(sounds, page))| < 500
  {
    var reply := ListReply(sounds, page);
    match reply
    case NoSounds =>
    case ScriptError =>
    case EmptyPage(_) => ShownLength(page);
    case Listing(_) =>
      var shown := PageOf(sounds, page);
      TotalPagesBound(|sounds|, |shown|);
      PageInfoLength(page, TotalPages(|sounds|, |shown|));
      assert Fits(shown);
  }

  // ---------- which sounds are listed ----------

  /** Page numbers whose start index did not wrap. */
  predicate Ordinary(page: Integer) {
    page >= 1 && StartIndex(page) == (page as int - 1) * PAGE_STEP + 1
  }

  /** The sound at 1-based index `i` is on the page. */
  ghost predicate OnPage(sounds: seq<string>, page: Integer, i: nat) {
    StartsInside(sounds, page) && StartIndex(page) <= i < StartIndex(page) + |PageOf(sounds, page)|
  }

  /** The page that starts at most 14 sounds before `i`. */
  function HomePage(i: nat): (p: Integer)
    requires 1 <= i <= MAX_INTEGER
    ensures Ordinary(p) && StartIndex(p) <= i < StartIndex(p) + PAGE_STEP
  {
    assert ((i - 1) / PAGE_STEP) * PAGE_STEP <= i - 1;
    ((i - 1) / PAGE_STEP + 1) as Integer
  }

  lemma OnPageIff(sounds: seq<string>, page: Integer, i: nat)
    requires StartsInside(sounds, page) && StartIndex(page) <= i <= |sounds|
    ensures OnPage(sounds, page, i) <==> Fits(sounds[StartIndex(page) - 1..i])
  {
    var rest := sounds[StartIndex(page) - 1..];
    var shown := PageOf(sounds, page);
    var k := i - (StartIndex(page) - 1);
    assert sounds[StartIndex(page) - 1..i] == rest[..k];
    if k <= |shown| {
      assert shown[..k] == rest[..k];
      FitsPrefix(shown, k);
    } else {
      assert rest[..k][..|shown| + 1] == rest[..|shown| + 1];
      FitsPrefix(rest[..k], |shown| + 1);
    }
  }

  lemma {:induction false} FitsSuffix(sounds: seq<string>, k: nat)
    requires k <= |sounds|
    ensures |Body(sounds[k..])| <= |Body(sounds)|
  {
    if k > 0 {
      if |sounds| > 1 {
        FitsSuffix(sounds[1..], k - 1);
        assert sounds[1..][k - 1..] == sounds[k..];
      } else {
        assert sounds[k..] == [];
      }
    } else {
      assert sounds[k..] == sounds;
    }
  }

  /** Among the pages whose start did not wrap, a sound is on some page exactly when it is on its home
      page, and that is exactly when the sounds from the start of that page up to it fit the budget. */
  lemma ListedIff(sounds: seq<string>, i: nat)
    requires 1 <= i <= |sounds| <= MAX_INTEGER
    ensures (exists page: Integer :: Ordinary(page) && OnPage(sounds, page, i)) <==> OnPage(sounds, HomePage(i), i)
    ensures OnPage(sounds, HomePage(i), i) <==> Fits(sounds[StartIndex(HomePage(i)) - 1..i])
  {
    var home := HomePage(i);
    OnPageIff(sounds, home, i);
    forall page: Integer | Ordinary(page) && OnPage(sounds, page, i) ensures OnPage(sounds, home, i) {
      OnPageIff(sounds, page, i);
      var wide, narrow := sounds[StartIndex(page) - 1..i], sounds[StartIndex(home) - 1..i];
      assert page <= home;
      var k := StartIndex(home) - StartIndex(page);
      assert wide[k..] == narrow;
      FitsSuffix(wide, k);
    }
  }

  predicate NamesWithin(sounds: seq<string>, length: nat) {
    forall j :: 0 <= j < |sounds| ==> |sounds[j]| <= length
  }

  lemma {:induction false} TotalWithin(sounds: seq<string>, length: nat)
    requires NamesWithin(sounds, length)
    ensures TotalLength(sounds) <= |sounds| * length
  {
    if |sounds| > 0 {
      TotalWithin(sounds[1..], length);
      assert (|sounds| - 1) * length + length == |sounds| * length;
    }
  }

  lemma {:induction false} TotalExactly(sounds: seq<string>, length: nat)
    requires forall j :: 0 <= j < |sounds| ==> |sounds[j]| == length
    ensures TotalLength(sounds) == |sounds| * length
  {
    if |sounds| > 0 {
      TotalExactly(sounds[1..], length);
      assert (|sounds| - 1) * length + length == |sounds| * length;
    }
  }

  /** Whatever the sounds, as long as no name is longer than `length`, each is on its home page. */
  ghost predicate AlwaysAtHome(length: nat) {
    forall sounds, i :: 1 <= i <= |sounds| <= MAX_INTEGER && NamesWithin(sounds, length) ==>
      OnPage(sounds, HomePage(i), i)
  }

  lemma FifteenShortNamesFit(sounds: seq<string>)
    requires |sounds| <= 15 && NamesWithin(sounds, 26)
    ensures Fits(sounds)
  {
    TotalWithin(sounds, 26);
    JoinedLength(sounds, ", ");
  }

  lemma ShortNamesAreAtHome(sounds: seq<string>, i: nat)
    requires 1 <= i <= |sounds| <= MAX_INTEGER && NamesWithin(sounds, 26)
    ensures OnPage(sounds, HomePage(i), i)
  {
    FifteenShortNamesFit(sounds[StartIndex(HomePage(i)) - 1..i]);
    ListedIff(sounds, i);
  }

  lemma FirstPageStartsFirst()
    ensures HomePage(15) == 1 && StartIndex(1) == 1
  {
  }

  lemma FifteenLongNames(sounds: seq<string>)
    requires |sounds| == 15 && forall j :: 0 <= j < |sounds| ==> |sounds[j]| == 27
    ensures !OnPage(sounds, HomePage(15), 15)
  {
    FirstPageStartsFirst();
    ListedIff(sounds, 15);
    assert sounds[StartIndex(1) - 1..15] == sounds;
    TotalExactly(sounds, 27);
    JoinedLength(sounds, ", ");
  }

  lemma LongNamesAreNot(length: nat)
    requires length >= 27
    ensures !AlwaysAtHome(length)
  {
    var name := seq(27, _ => 'a');
    var sounds := seq(15, _ => name);
    FifteenLongNames(sounds);
    assert NamesWithin(sounds, length);
  }

  /** The fixed step of 15 always shows a sound on its home page exactly for names of at most 26
      characters. */
  lemma TwentySixIsTheLimit(length: nat)
    ensures AlwaysAtHome(length) <==> length <= 26
  {
    if length <= 26 {
      forall sounds, i | 1 <= i <= |sounds| <= MAX_INTEGER && NamesWithin(sounds, length)
        ensures OnPage(sounds, HomePage(i), i)
      {
        ShortNamesAreAtHome(sounds, i);
      }
    } else {
      LongNamesAreNot(length);
    }
  }

  // ---------- every page number, wrapped or not ----------

  /** The inverse of 15 modulo 2^64. */
  const STEP_INVERSE := 0xEEEE_EEEE_EEEE_EEEF

  lemma WrapShift(n: int, turns: int)
    ensures Wrap(n + turns * INTEGER_RANGE) == Wrap(n)
  {
  }

  lemma WrapTurns(n: int) returns (turns: int)
    ensures Wrap(n) == n + turns * INTEGER_RANGE
  {
    turns := -((n - MIN_INTEGER) / INTEGER_RANGE);
  }

  /** Every index is the start of some page. */
  function PageStartingAt(i: nat): Integer
    requires 1 <= i <= MAX_INTEGER
  {
    Wrap(Wrap((i - 1) * STEP_INVERSE) + 1) as Integer
  }

  lemma StepsBack(w: int)
    requires MIN_INTEGER <= w <= MAX_INTEGER
    ensures Wrap(Wrap(w + 1) - 1) == w
  {
    if w == MAX_INTEGER {
      WrapShift(w, -1);
      WrapShift(w + 1, -1);
    }
  }

  lemma PageStartsThere(i: nat)
    requires 1 <= i <= MAX_INTEGER
    ensures StartIndex(PageStartingAt(i)) == i
  {
    var w := Wrap((i - 1) * STEP_INVERSE);
    var turns := WrapTurns((i - 1) * STEP_INVERSE);
    StepsBack(w);
    assert PAGE_STEP * STEP_INVERSE == 1 + 14 * INTEGER_RANGE;
    assert w * PAGE_STEP == (i - 1) + (14 * (i - 1) + PAGE_STEP * turns) * INTEGER_RANGE;
    WrapShift(i - 1, 14 * (i - 1) + PAGE_STEP * turns);
  }

  lemma AloneItFitsIff(name: string)
    ensures Fits([name]) <==> |name| <= BUDGET - |HEADER|
  {
  }

  /** Over every page number Lua can hold, a sound is listed on some page exactly when its name fits a
      reply by itself: when it has at most 432 characters. */
  lemma ListedOnSomePageIff(sounds: seq<string>, i: nat)
    requires 1 <= i <= |sounds| <= MAX_INTEGER
    ensures (exists page: Integer :: OnPage(sounds, page, i)) <==> |sounds[i - 1]| <= 432
  {
    AloneItFitsIff(sounds[i - 1]);
    forall page: Integer | OnPage(sounds, page, i) ensures |sounds[i - 1]| <= 432 {
      OnPageIff(sounds, page, i);
      var part := sounds[StartIndex(page) - 1..i];
      FitsSuffix(part, |part| - 1);
      assert part[|part| - 1..] == [sounds[i - 1]];
    }
    if |sounds[i - 1]| <= 432 {
      var page := PageStartingAt(i);
      PageStartsThere(i);
      assert sounds[i - 1..i] == [sounds[i - 1]];
      OnPageIff(sounds, page, i);
    }
  }

  /** Wrapping pages matter: fifteen names of 27 characters leave the last off its home page, but not
      off every page. */
  lemma WrappedPageShowsTheLast(sounds: seq<string>)
    requires |sounds| == 15 && forall j :: 0 <= j < |sounds| ==> |sounds[j]| == 27
    ensures !OnPage(sounds, HomePage(15), 15) && exists page: Integer :: OnPage(sounds, page, 15)
  {
    FifteenLongNames(sounds);
    ListedOnSomePageIff(sounds, 15);
  }

  // ---------- what the reply shows ----------

  /** The number a string of digits stands for. */
  function NumberOf(digits: string): int {
    if digits == "" then 0
    else 10 * NumberOf(digits[..|digits| - 1]) + (digits[|digits| - 1] as int - '0' as int)
  }

  function SignedNumberOf(text: string): int {
    if text != "" && text[0] == '-' then -NumberOf(text[1..]) else NumberOf(text)
  }

  lemma {:induction false} DecimalReadsBack(n: nat)
    ensures NumberOf(Decimal(n)) == n
    ensures forall i :: 0 <= i < |Decimal(n)| ==> '0' <= Decimal(n)[i] <= '9'
    ensures n > 0 ==> Decimal(n)[0] != '0'
  {
    if n >= 10 {
      DecimalReadsBack(n / 10);
      assert Decimal(n)[..|Decimal(n)| - 1] == Decimal(n / 10);
    } else {
      assert Decimal(n)[..0] == "";
    }
  }

  lemma ShownReadsBack(n: int)
    ensures SignedNumberOf(Shown(n)) == n
  {
    if n >= 0 {
      DecimalReadsBack(n);
      assert Decimal(n)[0] != '-';
    } else {
      DecimalReadsBack(-n);
      assert ("-" + Decimal(-n))[1..] == Decimal(-n);
    }
  }

  /** The start index is fifteen sounds per earlier page, plus one, modulo 2^64. */
  lemma StartIndexSpelledOut(page: Integer) returns (turns: int)
    ensures MIN_INTEGER <= StartIndex(page) <= MAX_INTEGER
    ensures StartIndex(page) == (page as int - 1) * 15 + 1 + turns * 0x1_0000_0000_0000_0000
  {
    var t1 := WrapTurns(page as int - 1);
    var t2 := WrapTurns(Wrap(page as int - 1) * PAGE_STEP);
    var t3 := WrapTurns(Wrap(Wrap(page as int - 1) * PAGE_STEP) + 1);
    turns := 15 * t1 + t2 + t3;
  }

  /** Which of the four replies is given. */
  lemma WhichReply(sounds: seq<string>, page: Integer)
    ensures ListReply(sounds, page) == NoSounds <==> sounds == []
    ensures ListReply(sounds, page) == ScriptError <==> sounds != [] && StartIndex(page) < 1
    ensures ListReply(sounds, page).Listing? <==> sounds != [] && exists i: nat :: OnPage(sounds, page, i)
    ensures ListReply(sounds, page).EmptyPage? ==> ListReply(sounds, page).page == page
  {
    if StartsInside(sounds, page) && PageOf(sounds, page) != [] {
      assert OnPage(sounds, page, StartIndex(page));
    }
  }

  /** The texts of the other replies. */
  lemma OtherReplyTexts(page: Integer) returns (shown: string)
    ensures SignedNumberOf(shown) == page as int
    ensures ReplyText(EmptyPage(page)) == "Page " + shown + " is empty. Try a lower page number."
    ensures ReplyText(NoSounds) == "No sounds found in directory: sounds"
    ensures ReplyText(ScriptError) == "Command error occured - check logs"
  {
    shown := Shown(page as int);
    ShownReadsBack(page as int);
  }

  /** A listing shows exactly the sounds of its page, in order, then the page number and the total; the
      total is the number of sounds over those shown, rounded up, and both read back. */
  lemma ListingShowsThePage(sounds: seq<string>, page: Integer)
    returns (a: nat, b: nat, total: nat, shownPage: string, shownTotal: string)
    requires ListReply(sounds, page).Listing?
    ensures a < b <= |sounds| && forall i: nat :: a < i <= b <==> OnPage(sounds, page, i)
    ensures |sounds| <= total * (b - a) < |sounds| + (b - a)
    ensures SignedNumberOf(shownPage) == page as int && NumberOf(shownTotal) == total
    ensures ListReply(sounds, page).text
         == "Available sounds: " + Joined(sounds[a..b], ", ")
            + if total > 1 then " (Page " + shownPage + "/" + shownTotal + ")" else ""
  {
    var shown := PageOf(sounds, page);
    a := StartIndex(page) - 1;
    b := a + |shown|;
    assert shown == sounds[a..][..|shown|] == sounds[a..b];
    total := TotalPages(|sounds|, |shown|);
    TotalPagesRoundsUp(|sounds|, |shown|, total);
    shownPage, shownTotal := Shown(page as int), Decimal(total);
    ShownReadsBack(page as int);
    DecimalReadsBack(total);
    assert ListReply(sounds, page).text == Body(shown) + PageInfo(page, total);
  }
}
