/** The cron picker's parsing and printing (components/schedules/CustomPicker.tsx). */
module CustomPicker {
  import opened Prelude
  import opened Json

  // ---- parseCron ----

  /** What String.trim and \s in a pattern treat as white space. */
  predicate Space(c: char) {
    '\t' <= c <= '\r' || c == ' ' || c == '\U{a0}' || c == '\U{1680}' || '\U{2000}' <= c <= '\U{200a}'
    || c == '\U{2028}' || c == '\U{2029}' || c == '\U{202f}' || c == '\U{205f}' || c == '\U{3000}'
    || c == '\U{feff}'
  }

  function WordLength(s: string): (k: nat)
    ensures k <= |s|
    ensures |s| > 0 && !Space(s[0]) ==> k > 0
  {
    if |s| == 0 || Space(s[0]) then 0 else 1 + WordLength(s[1..])
  }

  /** The fields of trim().split(/\s+/), except that a blank text has none here and one empty
      field there (see ParseCron). */
  function Words(s: string): seq<string>
    decreases |s|
  {
    if |s| == 0 then []
    else if Space(s[0]) then Words(s[1..])
    else [s[..WordLength(s)]] + Words(s[WordLength(s)..])
  }

  predicate Blank(cron: string) {
    Words(cron) == []
  }

  datatype Fields = Fields(minute: string, hour: string, dom: string, month: string, dow: string)

  function FieldsOf(words: seq<string>): Fields {
    Fields(if |words| > 0 then words[0] else "0",
           if |words| > 1 then words[1] else "0",
           if |words| > 2 then words[2] else "*",
           if |words| > 3 then words[3] else "*",
           if |words| > 4 then words[4] else "*")
  }

  function ParseCron(cron: string): Fields {
    FieldsOf(if Blank(cron) then [""] else Words(cron))
  }

  // ---- frequencyOf, selectedDays ----

  datatype Frequency = Minutes | Hourly | Daily | Weekly

  predicate Stepped(minute: string) {
    "*/" <= minute
  }

  function Classify(f: Fields): Frequency {
    if Stepped(f.minute) then Minutes
    else if f.hour == "*" then Hourly
    else if f.dow != "*" then Weekly
    else Daily
  }

  function FrequencyOf(cron: string): Frequency {
    Classify(ParseCron(cron))
  }

  /** split(",") */
  function Parts(s: string): seq<string> {
    if |s| == 0 then [[]]
    else if s[0] == ',' then [[]] + Parts(s[1..])
    else [[s[0]] + Parts(s[1..])[0]] + Parts(s[1..])[1..]
  }

  function Upward(lo: nat, hi: nat): seq<nat>
    decreases hi + 1 - lo
  {
    if lo > hi then [] else [lo] + Upward(lo + 1, hi)
  }

  predicate AllDigits(s: string) {
    forall i | 0 <= i < |s| :: IsDigit(s[i])
  }

  /** A single-digit range, or a number; an empty part is the number 0. */
  function PartDays(part: string): seq<nat> {
    if |part| == 3 && IsDigit(part[0]) && part[1] == '-' && IsDigit(part[2])
    then Upward(DigitValue(part[0]), DigitValue(part[2]))
    else if AllDigits(part) then [Value(part)]
    else []
  }

  function AllDays(parts: seq<string>): seq<nat> {
    if |parts| == 0 then [] else PartDays(parts[0]) + AllDays(parts[1..])
  }

  predicate Ascending(s: seq<nat>) {
    |s| < 2 || (s[0] <= s[1] && Ascending(s[1..]))
  }

  function Insert(d: nat, s: seq<nat>): seq<nat> {
    if |s| == 0 || d <= s[0] then [d] + s else [s[0]] + Insert(d, s[1..])
  }

  function Sorted(s: seq<nat>): seq<nat> {
    if |s| == 0 then [] else Insert(s[0], Sorted(s[1..]))
  }

  lemma {:induction false} InsertAscends(d: nat, s: seq<nat>)
    requires Ascending(s)
    ensures Ascending(Insert(d, s)) && Insert(d, s)[0] in {d, if |s| > 0 then s[0] else d}
  {
    if |s| == 0 || d <= s[0] {
      assert ([d] + s)[1..] == s;
    } else {
      InsertAscends(d, s[1..]);
      assert ([s[0]] + Insert(d, s[1..]))[1..] == Insert(d, s[1..]);
    }
  }

  lemma {:induction false} InsertAdds(d: nat, s: seq<nat>)
    ensures multiset(Insert(d, s)) == multiset(s) + multiset{d}
  {
    if |s| > 0 && s[0] < d {
      InsertAdds(d, s[1..]);
      assert s == [s[0]] + s[1..];
    }
  }

  /** sort((a, b) => a - b) */
  lemma {:induction false} SortedIs(s: seq<nat>)
    ensures Ascending(Sorted(s)) && multiset(Sorted(s)) == multiset(s)
  {
    if |s| > 0 {
      SortedIs(s[1..]);
      InsertAscends(s[0], Sorted(s[1..]));
      InsertAdds(s[0], Sorted(s[1..]));
      assert s == [s[0]] + s[1..];
    }
  }

  lemma SortedHas(s: seq<nat>)
    ensures forall d :: d in Sorted(s) <==> d in s
  {
    SortedIs(s);
    assert forall d :: d in Sorted(s) <==> d in multiset(Sorted(s));
    assert forall d :: d in s <==> d in multiset(s);
  }

  function SelectedDays(dow: string): seq<nat> {
    if dow == "*" then [] else Sorted(AllDays(Parts(dow)))
  }

  // ---- setFrequency, toggleDay ----

  function Print(f: Fields): string {
    f.minute + (" " + (f.hour + (" " + (f.dom + (" " + (f.month + (" " + f.dow)))))))
  }

  function JoinDays(days: seq<nat>): string
    requires |days| > 0
  {
    if |days| == 1 then Decimal(days[0]) else Decimal(days[0]) + ("," + JoinDays(days[1..]))
  }

  function HourFor(hour: string): string {
    if hour == "*" then "9" else hour
  }

  function MinuteFor(minute: string): string {
    if Stepped(minute) then "0" else minute
  }

  /** What setFrequency hands to the callback, before it is joined with spaces. */
  function Reshaped(f: Fields, next: Frequency): Fields {
    var days := SelectedDays(f.dow);
    match next
    case Minutes => Fields("*/15", "*", "*", "*", "*")
    case Hourly => Fields(MinuteFor(f.minute), "*", "*", "*", "*")
    case Daily => Fields(MinuteFor(f.minute), HourFor(f.hour), f.dom, f.month, "*")
    case Weekly => Fields(MinuteFor(f.minute), HourFor(f.hour), f.dom, f.month,
                          if |days| > 0 then JoinDays(days) else "1")
  }

  function SetFrequency(cron: string, next: Frequency): string {
    Print(Reshaped(ParseCron(cron), next))
  }

  function Without(days: seq<nat>, day: nat): (r: seq<nat>)
    ensures forall x :: x in r <==> x in days && x != day
  {
    if |days| == 0 then []
    else (if days[0] == day then [] else [days[0]]) + Without(days[1..], day)
  }

  function Toggled(days: seq<nat>, day: nat): seq<nat> {
    if day in days then Without(days, day) else Sorted(days + [day])
  }

  function WithDays(f: Fields, days: seq<nat>): Fields {
    Fields(MinuteFor(f.minute), HourFor(f.hour), f.dom, f.month, if |days| > 0 then JoinDays(days) else "*")
  }

  function ToggleDay(cron: string, day: nat): string {
    var f := ParseCron(cron);
    Print(WithDays(f, Toggled(SelectedDays(f.dow), day)))
  }

  function DaySet(cron: string): set<nat> {
    set d | d in SelectedDays(ParseCron(cron).dow)
  }

  // ---- printed fields parse back ----

  predicate IsWord(w: string) {
    |w| > 0 && forall i | 0 <= i < |w| :: !Space(w[i])
  }

  predicate AllWords(f: Fields) {
    IsWord(f.minute) && IsWord(f.hour) && IsWord(f.dom) && IsWord(f.month) && IsWord(f.dow)
  }

  lemma {:induction false} WordLengthIs(w: string, rest: string)
    requires forall i | 0 <= i < |w| :: !Space(w[i])
    requires |rest| > 0 ==> Space(rest[0])
    ensures WordLength(w + rest) == |w|
  {
    if |w| > 0 {
      WordLengthIs(w[1..], rest);
      assert (w + rest)[1..] == w[1..] + rest;
    } else {
      assert w + rest == rest;
    }
  }

  lemma FirstWord(w: string, rest: string)
    requires IsWord(w)
    ensures Words(w + (" " + rest)) == [w] + Words(rest)
  {
    var s := w + (" " + rest);
    WordLengthIs(w, " " + rest);
    assert s[..|w|] == w && s[|w|..] == " " + rest;
    assert (" " + rest)[1..] == rest;
  }

  lemma LastWord(w: string)
    requires IsWord(w)
    ensures Words(w) == [w]
  {
    WordLengthIs(w, []);
    assert w + [] == w;
    assert w[..|w|] == w && Words(w[|w|..]) == [];
  }

  lemma PrintedWords(f: Fields)
    requires AllWords(f)
    ensures Words(Print(f)) == [f.minute] + ([f.hour] + ([f.dom] + ([f.month] + [f.dow])))
  {
    LastWord(f.dow);
    var tail3 := f.month + (" " + f.dow);
    FirstWord(f.month, f.dow);
    var tail2 := f.dom + (" " + tail3);
    FirstWord(f.dom, tail3);
    FirstWord(f.hour, tail2);
    FirstWord(f.minute, f.hour + (" " + tail2));
  }

  lemma {:induction false} ParseOfPrint(f: Fields)
    requires AllWords(f)
    ensures ParseCron(Print(f)) == f
  {
    PrintedWords(f);
  }

  lemma {:induction false} WordsAreWords(s: string)
    ensures forall w | w in Words(s) :: IsWord(w)
    decreases |s|
  {
    if |s| > 0 {
      if Space(s[0]) {
        WordsAreWords(s[1..]);
      } else {
        WordIsWord(s);
        WordsAreWords(s[WordLength(s)..]);
      }
    }
  }

  lemma {:induction false} WordIsWord(s: string)
    ensures forall i | 0 <= i < WordLength(s) :: !Space(s[i])
  {
    if |s| > 0 && !Space(s[0]) {
      WordIsWord(s[1..]);
      assert forall i | 1 <= i < WordLength(s) :: s[i] == s[1..][i - 1];
    }
  }

  lemma ParsedWords(cron: string)
    requires !Blank(cron)
    ensures AllWords(ParseCron(cron))
  {
    WordsAreWords(cron);
  }

  lemma {:induction false} JoinedIsWord(days: seq<nat>)
    requires |days| > 0
    ensures IsWord(JoinDays(days)) && JoinDays(days)[0] != '*'
  {
    DecimalRoundTrip(days[0]);
    if |days| > 1 {
      JoinedIsWord(days[1..]);
    }
  }

  // ---- day lists parse back ----

  lemma {:induction false} FirstPart(part: string, rest: string)
    requires AllDigits(part)
    ensures Parts(part + ("," + rest)) == [part] + Parts(rest)
  {
    var s := part + ("," + rest);
    if |part| == 0 {
      assert s == "," + rest;
      assert s[1..] == rest;
    } else {
      FirstPart(part[1..], rest);
      assert s[1..] == part[1..] + ("," + rest);
      assert [part[0]] + part[1..] == part;
    }
  }

  lemma {:induction false} OnlyPart(part: string)
    requires AllDigits(part)
    ensures Parts(part) == [part]
  {
    if |part| > 0 {
      OnlyPart(part[1..]);
      assert [part[0]] + part[1..] == part;
    }
  }

  lemma NumberPart(d: nat)
    ensures AllDigits(Decimal(d)) && PartDays(Decimal(d)) == [d]
  {
    DecimalRoundTrip(d);
  }

  lemma {:induction false} JoinedDays(days: seq<nat>)
    requires |days| > 0
    ensures AllDays(Parts(JoinDays(days))) == days
  {
    NumberPart(days[0]);
    if |days| == 1 {
      OnlyPart(Decimal(days[0]));
      assert AllDays([Decimal(days[0])]) == [days[0]] + AllDays([]);
    } else {
      FirstPart(Decimal(days[0]), JoinDays(days[1..]));
      JoinedDays(days[1..]);
      assert ([Decimal(days[0])] + Parts(JoinDays(days[1..])))[1..] == Parts(JoinDays(days[1..]));
    }
  }

  lemma SelectedOfJoined(days: seq<nat>)
    requires |days| > 0
    ensures forall d :: d in SelectedDays(JoinDays(days)) <==> d in days
  {
    JoinedIsWord(days);
    JoinedDays(days);
    SortedHas(days);
  }

  lemma ToggledHas(days: seq<nat>, day: nat)
    ensures forall d :: d in Toggled(days, day) <==> if d == day then day !in days else d in days
  {
    SortedHas(days + [day]);
  }

  // ---- setFrequency sets the frequency ----

  lemma Literals()
    ensures IsWord("*") && IsWord("0") && IsWord("1") && IsWord("9") && IsWord("*/15")
  {
  }

  lemma ClockWords(f: Fields)
    requires AllWords(f)
    ensures IsWord(MinuteFor(f.minute)) && IsWord(HourFor(f.hour))
  {
    Literals();
  }

  lemma ReshapedWords(f: Fields, next: Frequency)
    requires AllWords(f)
    ensures AllWords(Reshaped(f, next))
  {
    Literals();
    ClockWords(f);
    var days := SelectedDays(f.dow);
    if |days| > 0 {
      JoinedIsWord(days);
    }
  }

  lemma ReshapedClass(f: Fields, next: Frequency)
    ensures Classify(Reshaped(f, next)) == next
  {
    var days := SelectedDays(f.dow);
    if |days| > 0 {
      JoinedIsWord(days);
    }
  }

  lemma BlankFields(cron: string)
    requires Blank(cron)
    ensures ParseCron(cron) == Fields("", "0", "*", "*", "*")
  {
  }

  /** A blank expression loses its empty minute when it is printed, so its fields move up. */
  lemma BlankShifts(hour: string, dow: string)
    requires IsWord(hour) && IsWord(dow)
    ensures ParseCron(Print(Fields("", hour, "*", "*", dow))) == Fields(hour, "*", "*", dow, "*")
    ensures !Blank(Print(Fields("", hour, "*", "*", dow)))
  {
    LastWord(dow);
    FirstWord("*", dow);
    FirstWord("*", "*" + (" " + dow));
    var rest := hour + (" " + ("*" + (" " + ("*" + (" " + dow)))));
    FirstWord(hour, "*" + (" " + ("*" + (" " + dow))));
    assert Print(Fields("", hour, "*", "*", dow)) == " " + rest;
    assert (" " + rest)[1..] == rest;
  }

  /** The picker reads back the frequency it set, unless the expression was blank and the
      frequency needs an hour. */
  lemma {:induction false} FrequencyIsSetExactlyWhen(cron: string, next: Frequency)
    ensures FrequencyOf(SetFrequency(cron, next)) == next <==> !Blank(cron) || next in {Minutes, Hourly}
  {
    var f := ParseCron(cron);
    ReshapedClass(f, next);
    if !Blank(cron) {
      ParsedWords(cron);
      ReshapedWords(f, next);
      ParseOfPrint(Reshaped(f, next));
    } else {
      BlankFields(cron);
      match next
      case Minutes => ParseOfPrint(Reshaped(f, next));
      case Hourly => BlankShifts("*", "*");
      case Daily => BlankShifts("0", "*");
      case Weekly => BlankShifts("0", "1");
    }
  }

  // ---- toggleDay ----

  lemma WithDaysWords(f: Fields, days: seq<nat>)
    requires AllWords(f)
    ensures AllWords(WithDays(f, days))
  {
    Literals();
    ClockWords(f);
    if |days| > 0 {
      JoinedIsWord(days);
    }
  }

  lemma WithDaysSelects(f: Fields, days: seq<nat>)
    ensures forall d :: d in SelectedDays(WithDays(f, days).dow) <==> d in days
  {
    if |days| > 0 {
      SelectedOfJoined(days);
    }
  }

  lemma ToggledParse(cron: string, day: nat)
    requires !Blank(cron)
    ensures !Blank(ToggleDay(cron, day))
    ensures ParseCron(ToggleDay(cron, day)) ==
            WithDays(ParseCron(cron), Toggled(SelectedDays(ParseCron(cron).dow), day))
  {
    var f := WithDays(ParseCron(cron), Toggled(SelectedDays(ParseCron(cron).dow), day));
    ParsedWords(cron);
    WithDaysWords(ParseCron(cron), Toggled(SelectedDays(ParseCron(cron).dow), day));
    ParseOfPrint(f);
    PrintedWords(f);
  }

  lemma BlankToggled(cron: string, day: nat)
    requires Blank(cron)
    ensures DaySet(cron) == {} && DaySet(ToggleDay(cron, day)) == {} && !Blank(ToggleDay(cron, day))
  {
    BlankFields(cron);
    Literals();
    ToggledHas([], day);
    var days := Toggled([], day);
    assert day in days;
    JoinedIsWord(days);
    BlankShifts("0", JoinDays(days));
  }

  ghost predicate Flipped(before: set<nat>, after: set<nat>, day: nat) {
    forall d :: d in after <==> if d == day then d !in before else d in before
  }

  /** Toggling flips one day and keeps the others, unless the expression was blank. */
  lemma {:induction false} ToggleFlipsExactlyWhen(cron: string, day: nat)
    ensures Flipped(DaySet(cron), DaySet(ToggleDay(cron, day)), day) <==> !Blank(cron)
  {
    if Blank(cron) {
      BlankToggled(cron, day);
      assert day !in DaySet(ToggleDay(cron, day));
    } else {
      var days := Toggled(SelectedDays(ParseCron(cron).dow), day);
      ToggledParse(cron, day);
      ToggledHas(SelectedDays(ParseCron(cron).dow), day);
      WithDaysSelects(ParseCron(cron), days);
    }
  }

  lemma FlipTwice(first: set<nat>, second: set<nat>, third: set<nat>, day: nat)
    requires Flipped(second, third, day)
    ensures Flipped(first, second, day) ==> third == first
    ensures first == second ==> third != first
  {
    assert day in third <==> day !in second;
  }

  /** Toggling a day twice restores the days, unless the expression was blank. */
  lemma {:induction false} ToggleTwiceExactlyWhen(cron: string, day: nat)
    ensures DaySet(ToggleDay(ToggleDay(cron, day), day)) == DaySet(cron) <==> !Blank(cron)
  {
    var once := ToggleDay(cron, day);
    if Blank(cron) {
      BlankToggled(cron, day);
    } else {
      ToggledParse(cron, day);
      ToggleFlipsExactlyWhen(cron, day);
    }
    ToggleFlipsExactlyWhen(once, day);
    FlipTwice(DaySet(cron), DaySet(once), DaySet(ToggleDay(once, day)), day);
  }

  // ---- what else the picker keeps ----

  /** What setFrequency writes, for an expression that is not blank: only the fields that the
      frequency governs are replaced. */
  lemma {:induction false} SetFrequencyWrites(cron: string, next: Frequency)
    requires !Blank(cron)
    ensures var was, f := ParseCron(cron), ParseCron(SetFrequency(cron, next));
            match next
            case Minutes => f == Fields("*/15", "*", "*", "*", "*")
            case Hourly => f == Fields(if "*/" <= was.minute then "0" else was.minute, "*", "*", "*", "*")
            case _ =>
              && f.minute == (if "*/" <= was.minute then "0" else was.minute)
              && f.hour == (if was.hour == "*" then "9" else was.hour)
              && f.dom == was.dom && f.month == was.month
              && (next == Daily ==> f.dow == "*")
              && (next == Weekly ==> forall d :: d in SelectedDays(f.dow) <==>
                    d in SelectedDays(was.dow) || (SelectedDays(was.dow) == [] && d == 1))
  {
    var f := ParseCron(cron);
    ParsedWords(cron);
    ReshapedWords(f, next);
    ParseOfPrint(Reshaped(f, next));
    if next == Weekly {
      if |SelectedDays(f.dow)| > 0 {
        SelectedOfJoined(SelectedDays(f.dow));
      } else {
        assert Decimal(1) == "1" && JoinDays([1]) == "1";
        SelectedOfJoined([1]);
      }
    }
  }

  /** toggleDay keeps day of month and month, and fills in a time where there was none. */
  lemma {:induction false} ToggleDayKeeps(cron: string, day: nat)
    requires !Blank(cron)
    ensures var was, f := ParseCron(cron), ParseCron(ToggleDay(cron, day));
            && f.minute == (if "*/" <= was.minute then "0" else was.minute)
            && f.hour == (if was.hour == "*" then "9" else was.hour)
            && f.dom == was.dom && f.month == was.month
  {
    ToggledParse(cron, day);
  }

  // ---- ranges ----

  lemma {:induction false} UpwardHas(lo: nat, hi: nat)
    ensures forall d :: d in Upward(lo, hi) <==> lo <= d <= hi
    decreases hi + 1 - lo
  {
    if lo <= hi {
      UpwardHas(lo + 1, hi);
    }
  }

  predicate NoComma(s: string) {
    forall i | 0 <= i < |s| :: s[i] != ','
  }

  lemma {:induction false} PartAlone(part: string)
    requires NoComma(part)
    ensures Parts(part) == [part]
  {
    if |part| > 0 {
      PartAlone(part[1..]);
      assert [part[0]] + part[1..] == part;
    }
  }

  lemma {:induction false} PartFirst(part: string, rest: string)
    requires NoComma(part)
    ensures Parts(part + ("," + rest)) == [part] + Parts(rest)
  {
    var s := part + ("," + rest);
    if |part| == 0 {
      assert s == "," + rest;
      assert s[1..] == rest;
    } else {
      PartFirst(part[1..], rest);
      assert s[1..] == part[1..] + ("," + rest);
      assert [part[0]] + part[1..] == part;
    }
  }

  lemma RangePart(lo: nat, hi: nat)
    requires lo < 10 && hi < 10
    ensures NoComma([Digit(lo), '-', Digit(hi)])
    ensures PartDays([Digit(lo), '-', Digit(hi)]) == Upward(lo, hi)
  {
    DecimalRoundTrip(lo);
    DecimalRoundTrip(hi);
  }

  lemma RangeDays(lo: nat, hi: nat, rest: string)
    requires lo < 10 && hi < 10
    ensures AllDays(Parts([Digit(lo), '-', Digit(hi)])) == Upward(lo, hi)
    ensures AllDays(Parts([Digit(lo), '-', Digit(hi)] + ("," + rest))) == Upward(lo, hi) + AllDays(Parts(rest))
  {
    var range := [Digit(lo), '-', Digit(hi)];
    RangePart(lo, hi);
    PartAlone(range);
    assert AllDays([range]) == PartDays(range) + AllDays([]);
    PartFirst(range, rest);
    assert ([range] + Parts(rest))[1..] == Parts(rest);
  }

  /** A range selects every day from its first to its last, alone or before other parts; the days
      come out in ascending order. */
  lemma {:induction false} RangeSelects(lo: nat, hi: nat, rest: string)
    requires lo < 10 && hi < 10
    ensures forall d :: d in SelectedDays([Digit(lo), '-', Digit(hi)]) <==> lo <= d <= hi
    ensures forall d :: d in SelectedDays([Digit(lo), '-', Digit(hi)] + ("," + rest)) <==>
              lo <= d <= hi || d in AllDays(Parts(rest))
    ensures Ascending(SelectedDays([Digit(lo), '-', Digit(hi)] + ("," + rest)))
  {
    var range := [Digit(lo), '-', Digit(hi)];
    RangeDays(lo, hi, rest);
    UpwardHas(lo, hi);
    SortedHas(Upward(lo, hi));
    SortedHas(Upward(lo, hi) + AllDays(Parts(rest)));
    SortedIs(Upward(lo, hi) + AllDays(Parts(rest)));
    assert |range| == 3 && |range + ("," + rest)| > 1;
  }
}
