/** Order numbers `ORD-<YYYYMMDD>-<seq>`: the day's prefix followed by one
    more than the day's highest sequence, zero-padded to four digits. The
    date and the numbers already issued are parameters. */
module OrderNumbering {
  import opened Common
  import opened PyText

  /** The prefix shared by every number issued on `date`. */
  function DayPrefix(date: string): (p: string)
    ensures |p| == |date| + 5 && p[|p| - 1] == '-'
  {
    "ORD-" + date + "-"
  }

  /** Python's `f"{n:04d}"` for `n >= 0`: decimal, left-padded with zeros to
      at least four characters. */
  function Pad4(n: nat): string
  {
    var d := Decimal(n);
    if |d| < 4 then Zeros(4 - |d|) + d else d
  }

  /** A padded number is at least four digits, reads back as the number,
      and is exactly four digits when the number is below 10000. */
  lemma Pad4Facts(n: nat)
    ensures AllDigits(Pad4(n)) && |Pad4(n)| >= 4 && Value(Pad4(n)) == n
    ensures n < 10000 ==> |Pad4(n)| == 4
  {
    var d := Decimal(n);
    DecimalValue(n);
    if |d| < 4 {
      ValueLeadingZeros(4 - |d|, d);
    }
    if n < 10000 {
      assert Pow10(4) == 10000;
      DecimalLength(n, 4);
    }
  }

  /** Python's `s.split("-")[-1]`: the text after the last dash, or all of
      `s` when it has none. */
  function LastComponent(s: string): (r: string)
    ensures '-' !in r
  {
    if s == [] then []
    else if s[|s| - 1] == '-' then []
    else LastComponent(s[..|s| - 1]) + [s[|s| - 1]]
  }

  /** Whatever follows a prefix ending in a dash is the last component,
      provided it holds no dash itself. */
  lemma {:induction false} LastComponentAfterDash(p: string, d: string)
    requires p != [] && p[|p| - 1] == '-' && '-' !in d
    ensures LastComponent(p + d) == d
    decreases |d|
  {
    if d == [] {
      assert p + d == p;
    } else {
      var d' := d[..|d| - 1];
      assert (p + d)[..|p + d| - 1] == p + d';
      assert d[|d| - 1] in d;
      assert forall c :: c in d' ==> c in d;
      LastComponentAfterDash(p, d');
    }
  }

  /** Removes the grouping underscores of a decimal literal body. */
  function DropUnderscores(b: string): (r: string)
    ensures AllDigits(b) ==> r == b
  {
    if b == [] then []
    else if b[0] == '_' then DropUnderscores(b[1..])
    else [b[0]] + DropUnderscores(b[1..])
  }

  /** Python's `_`-grouped decimal literal body: digits, with single
      underscores allowed between two digits. */
  predicate DigitGroups(b: string): (ok: bool)
    ensures ok ==> AllDigits(DropUnderscores(b))
    decreases |b|
  {
    && b != [] && IsDigit(b[0])
    && (|b| == 1
        || (b[1] == '_' && DigitGroups(b[2..]))
        || (b[1] != '_' && DigitGroups(b[1..])))
  }

  /** A non-empty string of plain digits is a valid literal body. */
  lemma {:induction false} DigitsAreGroups(d: string)
    requires AllDigits(d) && d != []
    ensures DigitGroups(d)
    decreases |d|
  {
    if |d| > 1 {
      DigitsAreGroups(d[1..]);
    }
  }

  /** Python's `int(s)` on a string holding no dash (the only strings it
      meets here, since they come from a split on `-`): surrounding
      whitespace is ignored, a `+` sign is allowed, then a grouped decimal
      number. Anything else raises, modelled as `None`. */
  function ParseInt(s: string): Option<nat>
    requires '-' !in s
  {
    var t := Strip(s);
    var body := if t != [] && t[0] == '+' then t[1..] else t;
    if DigitGroups(body) then Some(Value(DropUnderscores(body))) else None
  }

  /** A non-empty string of digits parses to the number it denotes. */
  lemma ParseDigits(d: string)
    requires AllDigits(d) && d != []
    ensures '-' !in d && ParseInt(d) == Some(Value(d))
  {
    assert forall c :: c in d ==> IsDigit(c);
    StripUnchanged(d);
    DigitsAreGroups(d);
  }

  // ---- String order, as the database sorts the `number` column ----

  /** Lexicographic order by code point; a proper prefix comes first. */
  predicate LexLess(a: string, b: string)
    decreases |a|
  {
    if a == [] then b != []
    else if b == [] then false
    else if a[0] != b[0] then a[0] < b[0]
    else LexLess(a[1..], b[1..])
  }

  lemma {:induction false} LexLessTrans(a: string, b: string, c: string)
    requires LexLess(a, b) && LexLess(b, c)
    ensures LexLess(a, c)
    decreases |a|
  {
    if a != [] && a[0] == b[0] && b[0] == c[0] {
      LexLessTrans(a[1..], b[1..], c[1..]);
    }
  }

  /** Two strings neither of which sorts before the other are equal. */
  lemma {:induction false} LexLessTotal(a: string, b: string)
    requires !LexLess(a, b) && !LexLess(b, a)
    ensures a == b
    decreases |a|
  {
    if a != [] {
      LexLessTotal(a[1..], b[1..]);
      assert a == [a[0]] + a[1..] && b == [b[0]] + b[1..];
    }
  }

  /** A shared prefix does not change the order. */
  lemma {:induction false} LexLessCommonPrefix(p: string, a: string, b: string)
    ensures LexLess(p + a, p + b) == LexLess(a, b)
    decreases |p|
  {
    if p == [] {
      assert p + a == a && p + b == b;
    } else {
      assert (p + a)[1..] == p[1..] + a && (p + b)[1..] == p[1..] + b;
      LexLessCommonPrefix(p[1..], a, b);
    }
  }

  /** A higher leading digit outweighs any tail shorter than its place. */
  lemma LeadingDigitDecides(da: nat, db: nat, p: nat, ra: nat, rb: nat)
    requires da < db && ra < p
    ensures da * p + ra < db * p + rb
  {
    assert (db - da - 1) * p >= 0;
    assert db * p - da * p == (db - da) * p;
  }

  /** On digit strings of one length, the string order is the numeric
      order. */
  lemma {:induction false} LexLessDigits(a: string, b: string)
    requires AllDigits(a) && AllDigits(b) && |a| == |b|
    ensures LexLess(a, b) <==> Value(a) < Value(b)
    decreases |a|
  {
    if a != [] {
      var da, db, p := DigitValue(a[0]), DigitValue(b[0]), Pow10(|a| - 1);
      assert Value(a) == da * p + Value(a[1..]);
      assert Value(b) == db * p + Value(b[1..]);
      if da < db {
        ValueBound(a[1..]);
        LeadingDigitDecides(da, db, p, Value(a[1..]), Value(b[1..]));
      } else if db < da {
        ValueBound(b[1..]);
        LeadingDigitDecides(db, da, p, Value(b[1..]), Value(a[1..]));
      } else {
        LexLessDigits(a[1..], b[1..]);
      }
    }
  }

  /** The greatest string of `xs`, as `order_by("-number").first()`. */
  function LexMax(xs: seq<string>): (r: Option<string>)
    ensures r.Some? <==> xs != []
    ensures r.Some? ==> r.value in xs
  {
    if xs == [] then None
    else
      var last := xs[|xs| - 1];
      match LexMax(xs[..|xs| - 1])
      case None => Some(last)
      case Some(m) => if LexLess(m, last) then Some(last) else Some(m)
  }

  /** No element of `xs` sorts after `LexMax(xs)`. */
  lemma {:induction false} LexMaxIsGreatest(xs: seq<string>)
    requires xs != []
    ensures forall x :: x in xs ==> !LexLess(LexMax(xs).value, x)
  {
    var init, last := xs[..|xs| - 1], xs[|xs| - 1];
    assert xs == init + [last];
    if init == [] {
      assert xs == [last];
      LexLessIrreflexive(last);
    } else {
      LexMaxIsGreatest(init);
      var m := LexMax(init).value;
      if LexLess(m, last) {
        forall x | x in xs ensures !LexLess(last, x) {
          if x in init && LexLess(last, x) {
            LexLessTrans(m, last, x);
          }
          LexLessIrreflexive(last);
        }
      } else {
        LexLessIrreflexive(m);
      }
    }
  }

  lemma {:induction false} LexLessIrreflexive(a: string)
    ensures !LexLess(a, a)
    decreases |a|
  {
    if a != [] {
      LexLessIrreflexive(a[1..]);
    }
  }

  /** The numbers of `xs` issued under `prefix`, in their order. */
  function SameDay(prefix: string, xs: seq<string>): (r: seq<string>)
    ensures forall x :: x in r <==> x in xs && StartsWith(x, prefix)
    ensures (forall x :: x in xs ==> !StartsWith(x, prefix)) ==> r == []
  {
    if xs == [] then []
    else
      var last := xs[|xs| - 1];
      assert forall x :: x in xs <==> x in xs[..|xs| - 1] || x == last;
      SameDay(prefix, xs[..|xs| - 1]) + (if StartsWith(last, prefix) then [last] else [])
  }

  // ---- The numbering as written ----

  /** The sequence the source assigns: one more than the suffix of the
      lexicographically greatest same-day number, or 1 when there is none
      or its suffix does not parse. */
  function NextSeq(date: string, existing: seq<string>): (s: nat)
    ensures s >= 1
  {
    match LexMax(SameDay(DayPrefix(date), existing))
    case None => 1
    case Some(last) =>
      match ParseInt(LastComponent(last))
      case None => 1
      case Some(v) => v + 1
  }

  /** The number `next_order_number` returns on `date`. Every such number is
      the day's prefix followed by at least four digits denoting a positive
      sequence. */
  function NextOrderNumber(date: string, existing: seq<string>): (r: string)
    ensures StartsWith(r, DayPrefix(date))
    ensures var s := r[|DayPrefix(date)|..]; AllDigits(s) && |s| >= 4 && Value(s) >= 1
  {
    var n := NextSeq(date, existing);
    Pad4Facts(n);
    assert (DayPrefix(date) + Pad4(n))[|DayPrefix(date)|..] == Pad4(n);
    DayPrefix(date) + Pad4(n)
  }

  /** With no same-day number the sequence starts at 0001. */
  lemma FirstOfTheDay(date: string, existing: seq<string>)
    requires forall x :: x in existing ==> !StartsWith(x, DayPrefix(date))
    ensures NextOrderNumber(date, existing) == DayPrefix(date) + "0001"
  {
    assert SameDay(DayPrefix(date), existing) == [];
    assert Pad4(1) == "0001";
  }

  /** When the greatest same-day number has a suffix that does not parse,
      the sequence falls back to 0001. */
  lemma UnparsableFallsBack(date: string, existing: seq<string>, top: string)
    requires top in existing && StartsWith(top, DayPrefix(date))
    requires forall x :: x in existing && StartsWith(x, DayPrefix(date)) ==> !LexLess(top, x)
    requires ParseInt(LastComponent(top)) == None
    ensures NextOrderNumber(date, existing) == DayPrefix(date) + "0001"
  {
    GreatestIsLexMax(date, existing, top);
    assert NextSeq(date, existing) == 1;
    assert Pad4(1) == "0001";
  }

  /** Otherwise the sequence is one more than the greatest same-day number's
      suffix. */
  lemma FollowsGreatest(date: string, existing: seq<string>, top: string, v: nat)
    requires top in existing && StartsWith(top, DayPrefix(date))
    requires forall x :: x in existing && StartsWith(x, DayPrefix(date)) ==> !LexLess(top, x)
    requires ParseInt(LastComponent(top)) == Some(v)
    ensures NextOrderNumber(date, existing) == DayPrefix(date) + Pad4(v + 1)
  {
    GreatestIsLexMax(date, existing, top);
    assert NextSeq(date, existing) == v + 1;
  }

  /** The greatest same-day number is the one the scan finds. */
  lemma GreatestIsLexMax(date: string, existing: seq<string>, top: string)
    requires top in existing && StartsWith(top, DayPrefix(date))
    requires forall x :: x in existing && StartsWith(x, DayPrefix(date)) ==> !LexLess(top, x)
    ensures LexMax(SameDay(DayPrefix(date), existing)) == Some(top)
  {
    var same := SameDay(DayPrefix(date), existing);
    LexMaxIsGreatest(same);
    var m := LexMax(same).value;
    LexLessTotal(m, top);
  }

  /** Every number issued under `p` is `p` followed by exactly four
      digits. */
  predicate FourDigitDay(p: string, existing: seq<string>)
  {
    forall x :: x in existing && StartsWith(x, p) ==> |x| == |p| + 4 && AllDigits(x[|p|..])
  }

  /** Under four-digit numbers, the suffix of the greatest number in string
      order is the greatest suffix value. */
  lemma {:induction false} LexMaxHoldsMaxSuffix(p: string, existing: seq<string>)
    requires p != [] && p[|p| - 1] == '-'
    requires FourDigitDay(p, existing)
    requires SameDay(p, existing) != []
    ensures SuffixValue(p, LexMax(SameDay(p, existing)).value) == Some(MaxSuffix(p, existing))
  {
    var same := SameDay(p, existing);
    LexMaxIsGreatest(same);
    var m := LexMax(same).value;
    var dm := m[|p|..];
    assert m == p + dm;
    LastComponentAfterDash(p, dm);
    ParseDigits(dm);
    assert SuffixValue(p, m) == Some(Value(dm));
    MaxSuffixBounds(p, existing);
    var mx := MaxSuffix(p, existing);
    assert Value(dm) <= mx;
    if mx != 0 {
      var x :| x in existing && StartsWith(x, p) && SuffixValue(p, x) == Some(mx);
      var dx := x[|p|..];
      assert x == p + dx;
      LastComponentAfterDash(p, dx);
      ParseDigits(dx);
      assert Value(dx) == mx;
      assert !LexLess(m, x);
      LexLessCommonPrefix(p, dm, dx);
      LexLessDigits(dm, dx);
      assert Value(dx) <= Value(dm);
    }
    assert Value(dm) == mx;
  }

  /** When every same-day number carries exactly four digits after the
      prefix, the source's scan finds the numerically greatest one, so it
      agrees with the numeric rule below. */
  lemma FourDigitAgreement(date: string, existing: seq<string>)
    requires FourDigitDay(DayPrefix(date), existing)
    ensures NextOrderNumber(date, existing) == NextOrderNumberFixed(date, existing)
  {
    var p := DayPrefix(date);
    MaxSuffixBounds(p, existing);
    if SameDay(p, existing) != [] {
      LexMaxHoldsMaxSuffix(p, existing);
    }
    assert NextSeq(date, existing) == MaxSuffix(p, existing) + 1;
  }

  /** Under well-formed four-digit numbers the source's rule never reissues
      a number of the day. */
  lemma FourDigitFresh(date: string, existing: seq<string>)
    requires FourDigitDay(DayPrefix(date), existing)
    ensures NextOrderNumber(date, existing) !in existing
  {
    FourDigitAgreement(date, existing);
    FixedIsFresh(date, existing);
  }

  /** The source's rule reissues a number once a day passes 9999 orders:
      `"…-10000"` sorts before `"…-9999"`, so the scan keeps finding 9999
      and proposes 10000 again, on any date. */
  lemma StringScanCollides(date: string)
    ensures var existing := [DayPrefix(date) + "9999", DayPrefix(date) + "10000"];
            NextOrderNumber(date, existing) == DayPrefix(date) + "10000" &&
            NextOrderNumber(date, existing) in existing
  {
    ScanFindsNineNineNineNine(date);
    PadTenThousand();
  }

  lemma ScanFindsNineNineNineNine(date: string)
    ensures var p := DayPrefix(date);
            NextOrderNumber(date, [p + "9999", p + "10000"]) == p + Pad4(10000)
  {
    var p := DayPrefix(date);
    var existing := [p + "9999", p + "10000"];
    assert LexLess("10000", "9999");
    LexLessCommonPrefix(p, "10000", "9999");
    LexLessIrreflexive(existing[0]);
    LastComponentAfterDash(p, "9999");
    SuffixNineNineNineNine();
    forall x | x in existing && StartsWith(x, p) ensures !LexLess(existing[0], x) {
      if x == existing[1] && LexLess(existing[0], x) {
        LexLessTrans(x, existing[0], x);
        LexLessIrreflexive(x);
      }
    }
    assert existing[0] in existing && StartsWith(existing[0], p);
    FollowsGreatest(date, existing, existing[0], 9999);
  }

  lemma PadTenThousand()
    ensures Pad4(10000) == "10000"
  {
    assert Decimal(1) == "1";
    assert Decimal(10) == "10";
    assert Decimal(100) == "100";
    assert Decimal(1000) == "1000";
    assert Decimal(10000) == "10000";
  }

  lemma SuffixNineNineNineNine()
    ensures '-' !in "9999" && ParseInt("9999") == Some(9999)
  {
    var d := "9999";
    assert AllDigits(d) by {
      forall i | 0 <= i < |d| ensures IsDigit(d[i]) { }
    }
    ParseDigits(d);
    assert AllDigits("9") && AllDigits("99") && AllDigits("999");
    ValueSnoc("", '9');
    assert "" + ['9'] == "9";
    ValueSnoc("9", '9');
    assert "9" + ['9'] == "99";
    ValueSnoc("99", '9');
    assert "99" + ['9'] == "999";
    ValueSnoc("999", '9');
    assert "999" + ['9'] == d;
  }

  // ---- The numbering by numeric maximum ----

  /** The numeric value of the suffix of a number issued under `prefix`. */
  function SuffixValue(prefix: string, x: string): Option<nat>
  {
    ParseInt(LastComponent(x))
  }

  /** The greatest suffix value among the numbers of `xs` under `prefix`
      whose suffix parses; 0 when there is none. */
  function MaxSuffix(prefix: string, xs: seq<string>): nat
  {
    if xs == [] then 0
    else
      var rest := MaxSuffix(prefix, xs[..|xs| - 1]);
      var last := xs[|xs| - 1];
      if StartsWith(last, prefix) && SuffixValue(prefix, last).Some? && SuffixValue(prefix, last).value > rest
      then SuffixValue(prefix, last).value
      else rest
  }

  /** `MaxSuffix` bounds every parseable same-day suffix and is attained by
      one of them unless it is 0. */
  lemma {:induction false} MaxSuffixBounds(prefix: string, xs: seq<string>)
    ensures forall x :: x in xs && StartsWith(x, prefix) && SuffixValue(prefix, x).Some? ==>
              SuffixValue(prefix, x).value <= MaxSuffix(prefix, xs)
    ensures MaxSuffix(prefix, xs) == 0 ||
            exists x :: x in xs && StartsWith(x, prefix) && SuffixValue(prefix, x) == Some(MaxSuffix(prefix, xs))
  {
    if xs != [] {
      var init := xs[..|xs| - 1];
      MaxSuffixBounds(prefix, init);
      assert xs == init + [xs[|xs| - 1]];
      assert forall x :: x in init ==> x in xs;
    }
  }

  /** One more than the greatest parseable same-day suffix: a per-day
      counter that never reissues a number. */
  function NextOrderNumberFixed(date: string, existing: seq<string>): (r: string)
    ensures StartsWith(r, DayPrefix(date))
    ensures var s := r[|DayPrefix(date)|..];
              AllDigits(s) && |s| >= 4 && Value(s) == MaxSuffix(DayPrefix(date), existing) + 1
  {
    var n := MaxSuffix(DayPrefix(date), existing) + 1;
    Pad4Facts(n);
    assert (DayPrefix(date) + Pad4(n))[|DayPrefix(date)|..] == Pad4(n);
    DayPrefix(date) + Pad4(n)
  }

  /** The numeric rule never reissues an existing number. */
  lemma FixedIsFresh(date: string, existing: seq<string>)
    ensures NextOrderNumberFixed(date, existing) !in existing
  {
    var p := DayPrefix(date);
    var n := MaxSuffix(p, existing) + 1;
    var r := NextOrderNumberFixed(date, existing);
    Pad4Facts(n);
    assert r == p + Pad4(n);
    assert forall c :: c in Pad4(n) ==> IsDigit(c);
    LastComponentAfterDash(p, Pad4(n));
    ParseDigits(Pad4(n));
    MaxSuffixBounds(p, existing);
  }
}
