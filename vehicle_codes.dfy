/** The vehicle-code normalisers of vehicles/management/commands/import_vehicles.py
    and the rule that picks a vehicle's code from an API record. The regular
    expressions become scans over character classes; `[A-Z]`, `[a-z]`, `\d`,
    `\s` and `\w` are their ASCII forms. */
module VehicleCodes {
  import opened Wrappers
  import opened Text

  /** `re.match(r"^[A-Z]+\d+$", s)` (letters = Uppers) or `^[a-z]+\d+$`
      (letters = Lowers): letters, digits, then the end of the text, where
      `$` also matches just before a final "\n". */
  predicate IsCode(s: string, letters: CharClass) {
    var e := RunEnd(s, 0, letters);
    var f := RunEnd(s, e, Digits);
    0 < e < f && (f == |s| || (f + 1 == |s| && s[f] == '\n'))
  }

  /** The text does not end in a newline. */
  predicate NoFinalNewline(s: string) { s == [] || s[|s| - 1] != '\n' }

  /** The last '-' part of a text holding '-' is a whole `[A-Z]+\d+` code. */
  predicate LastPartCode(u: string) {
    '-' in u && IsCode(Last(Split(u, '-')), Uppers)
  }

  /** `[A-Z]+\d+` matches starting at `i`: a letter whose run of letters is
      followed by a digit (backtracking into the letters cannot help, since
      a letter is never a digit). */
  predicate CodeAt(s: string, i: nat)
    requires i <= |s|
  {
    i < |s| && IsUpper(s[i]) && RunEnd(s, i, Uppers) < |s| && IsDigit(s[RunEnd(s, i, Uppers)])
  }

  /** `re.search(r"([A-Z]+\d+)", s)` from position `i`: the span of the
      leftmost match. */
  function SearchCode(s: string, i: nat): (r: Option<(nat, nat)>)
    requires i <= |s|
    ensures r.Some? ==> i <= r.value.0 < r.value.1 <= |s| && CodeAt(s, r.value.0)
    ensures r.Some? ==> r.value.1 == RunEnd(s, RunEnd(s, r.value.0, Uppers), Digits)
    ensures r.Some? ==> forall j :: i <= j < r.value.0 ==> !CodeAt(s, j)
    ensures r.None? ==> forall j :: i <= j <= |s| ==> !CodeAt(s, j)
    decreases |s| - i
  {
    if i == |s| then None
    else if CodeAt(s, i) then Some((i, RunEnd(s, RunEnd(s, i, Uppers), Digits)))
    else SearchCode(s, i + 1)
  }

  /** A match of `[A-Z]+\d+` is, on its own, a whole `^[A-Z]+\d+$` code. */
  lemma CodeAtIsCode(s: string, i: nat)
    requires i <= |s| && CodeAt(s, i)
    ensures IsCode(s[i..RunEnd(s, RunEnd(s, i, Uppers), Digits)], Uppers)
  {
    var e := RunEnd(s, i, Uppers);
    var f := RunEnd(s, e, Digits);
    var t := s[i..f];
    RunEndShift(s, i, f, i, Uppers);
    RunEndShift(s, i, f, e, Digits);
  }

  /** A run measured inside a slice ends where it ends in the whole string,
      as long as it ends inside the slice. */
  lemma {:induction false} RunEndShift(s: string, lo: nat, hi: nat, i: nat, k: CharClass)
    requires lo <= i <= hi <= |s| && RunEnd(s, i, k) <= hi
    requires RunEnd(s, i, k) == hi || !InClass(s[RunEnd(s, i, k)], k)
    ensures RunEnd(s[lo..hi], i - lo, k) == RunEnd(s, i, k) - lo
    decreases hi - i
  {
    if i < hi && InClass(s[i], k) {
      RunEndShift(s, lo, hi, i + 1, k);
    }
  }

  /** `normalize_fleet_number`: an empty value is returned as it is;
      otherwise the upper-cased value's last '-' part when that is a whole
      `[A-Z]+\d+` code, else its first `[A-Z]+\d+` match, else the
      upper-cased value itself. */
  function NormalizeFleetNumber(fleet: string): (r: string)
    ensures fleet == "" ==> r == fleet
    ensures fleet != "" ==> r == Upper(fleet) || IsCode(r, Uppers)
    ensures '-' !in r || r == Upper(fleet)
    ensures fleet != "" && LastPartCode(Upper(fleet)) ==> r == Last(Split(Upper(fleet), '-'))
    ensures fleet != "" && !LastPartCode(Upper(fleet)) && SearchCode(Upper(fleet), 0).Some? ==>
              var (i, e) := SearchCode(Upper(fleet), 0).value;
              r == Upper(fleet)[i..e]
    ensures fleet != "" && !LastPartCode(Upper(fleet)) && SearchCode(Upper(fleet), 0).None? ==> r == Upper(fleet)
  {
    if fleet == "" then fleet
    else
      var u := Upper(fleet);
      var parts := Split(u, '-');
      if LastPartCode(u) then Last(parts)
      else
        match SearchCode(u, 0)
        case Some((i, e)) =>
          CodeAtIsCode(u, i);
          assert '-' !in u[i..e] by {
            assert forall j :: i <= j < e ==> IsUpper(u[j]) || IsDigit(u[j]);
          }
          u[i..e]
        case None => u
  }

  lemma UpperIdempotent(s: string)
    ensures Upper(Upper(s)) == Upper(s)
  {
  }

  /** A whole code without a final newline is its own normal form. */
  lemma CodeIsNormal(c: string)
    requires IsCode(c, Uppers) && NoFinalNewline(c)
    ensures NormalizeFleetNumber(c) == c
  {
    var e := RunEnd(c, 0, Uppers);
    assert forall j :: 0 <= j < |c| ==> IsUpper(c[j]) || IsDigit(c[j]) by {
      forall j | 0 <= j < |c| ensures IsUpper(c[j]) || IsDigit(c[j]) {
        if j >= e { assert e <= j < RunEnd(c, e, Digits); }
      }
    }
    assert Upper(c) == c;
    assert '-' !in c;
    assert CodeAt(c, 0);
    assert c[0..|c|] == c;
  }

  /** `normalize_fleet_number` is idempotent on values that do not end in
      a newline: a normalised fleet number normalises to itself. */
  lemma FleetNumberIdempotent(fleet: string)
    requires NoFinalNewline(fleet)
    ensures NormalizeFleetNumber(NormalizeFleetNumber(fleet)) == NormalizeFleetNumber(fleet)
  {
    var r := NormalizeFleetNumber(fleet);
    if fleet != "" {
      var u := Upper(fleet);
      if IsCode(r, Uppers) {
        if LastPartCode(u) {
          SplitLast(u, '-');
          assert r[|r| - 1] == u[|u| - 1];
        }
        CodeIsNormal(r);
      } else {
        UpperIdempotent(fleet);
      }
    }
  }

  /** With a final newline the whole-code test still passes, so the
      newline is kept: "TNXB-E1133\n" gives "E1133\n", which itself
      normalises to "E1133". */
  lemma FleetNumberNewline(f: string, g: string)
    requires f == "TNXB-E1133\n" && g == "E1133\n"
    ensures NormalizeFleetNumber(f) == g
    ensures NormalizeFleetNumber(g) == "E1133"
  {
    NewlineKept(f, g);
    NewlineDropped(g);
  }

  lemma NewlineKept(f: string, g: string)
    requires f == "TNXB-E1133\n" && g == "E1133\n"
    ensures NormalizeFleetNumber(f) == g
  {
    UpperNoLower(f);
    assert f == "TNXB" + ['-'] + g;
    SplitTwo("TNXB", g, '-');
    NewlineCode(g);
  }

  lemma NewlineDropped(g: string)
    requires g == "E1133\n"
    ensures NormalizeFleetNumber(g) == "E1133"
  {
    UpperNoLower(g);
    NewlineCode(g);
    assert CodeAt(g, 0);
    assert g[0..5] == "E1133";
  }

  lemma NewlineCode(g: string)
    requires g == "E1133\n"
    ensures IsCode(g, Uppers) && '-' !in g
    ensures RunEnd(g, RunEnd(g, 0, Uppers), Digits) == 5
  {
    assert RunEnd(g, 1, Uppers) == 1;
    assert RunEnd(g, 0, Uppers) == 1;
    assert RunEnd(g, 5, Digits) == 5;
    assert RunEnd(g, 4, Digits) == 5;
    assert RunEnd(g, 3, Digits) == 5;
    assert RunEnd(g, 2, Digits) == 5;
    assert RunEnd(g, 1, Digits) == 5;
  }

  /** A numeric fleet number, read through `str`, normalises to its own
      digits. */
  lemma NumericFleetNumber(n: nat)
    ensures NormalizeFleetNumber(DecimalString(n)) == DecimalString(n)
  {
    var d := DecimalString(n);
    UpperNoLower(d);
    assert '-' !in d;
    assert forall j :: 0 <= j <= |d| ==> !CodeAt(d, j);
  }

  /** Upper-casing leaves a string without lower-case letters unchanged. */
  lemma UpperNoLower(s: string)
    requires forall i :: 0 <= i < |s| ==> !IsLower(s[i])
    ensures Upper(s) == s
  {
  }

  lemma E1133IsCode()
    ensures IsCode("E1133", Uppers)
  {
    var c := "E1133";
    assert RunEnd(c, 1, Uppers) == 1;
    assert RunEnd(c, 0, Uppers) == 1;
    assert RunEnd(c, 5, Digits) == 5;
    assert RunEnd(c, 4, Digits) == 5;
    assert RunEnd(c, 3, Digits) == 5;
    assert RunEnd(c, 2, Digits) == 5;
    assert RunEnd(c, 1, Digits) == 5;
  }

  /** The example of import_vehicles.py:16: "TNXB-E1133" gives "E1133". */
  lemma FleetNumberExample(f: string)
    requires f == "TNXB-E1133"
    ensures NormalizeFleetNumber(f) == "E1133"
  {
    UpperNoLower(f);
    assert f == "TNXB" + ['-'] + "E1133";
    SplitTwo("TNXB", "E1133", '-');
    assert f[4] == '-';
    E1133IsCode();
  }

  /** `[\s-]`, the separators a TMSB registration collapses. */
  predicate IsGap(c: char) { IsSpace(c) || c == '-' }
  /** `[\s_-]`, the separators a registration may carry. */
  predicate IsRegSep(c: char) { IsSpace(c) || c == '_' || c == '-' }

  /** Drops the leading run of gap characters. */
  function SkipGaps(s: string): (r: string)
    ensures |r| <= |s| && r == s[|s| - |r|..]
    ensures r == [] || !IsGap(r[0])
  {
    if |s| > 0 && IsGap(s[0]) then SkipGaps(s[1..]) else s
  }

  /** `re.sub(r"[\s-]+", "_", s)`: each run of whitespace and hyphens
      becomes one "_". */
  function CollapseGaps(s: string): (r: string)
    ensures forall j :: 0 <= j < |r| ==> !IsGap(r[j])
    decreases |s|
  {
    if s == [] then []
    else if IsGap(s[0]) then "_" + CollapseGaps(SkipGaps(s))
    else [s[0]] + CollapseGaps(s[1..])
  }

  /** `re.sub(r"[\s_-]", "", s)`: the characters other than whitespace,
      "_" and "-", in order. */
  function RemoveSeps(s: string): (r: string)
    ensures |r| <= |s|
    ensures forall j :: 0 <= j < |r| ==> !IsRegSep(r[j])
  {
    if s == [] then [] else (if IsRegSep(s[0]) then [] else [s[0]]) + RemoveSeps(s[1..])
  }

  /** Removing separators works piece by piece: it keeps every other
      character and their order. */
  lemma {:induction false} RemoveSepsAppend(a: string, b: string)
    ensures RemoveSeps(a + b) == RemoveSeps(a) + RemoveSeps(b)
  {
    if a != [] {
      RemoveSepsAppend(a[1..], b);
      assert (a + b)[1..] == a[1..] + b;
    } else {
      assert a + b == b;
    }
  }

  /** Text without separators is left as it is. */
  lemma {:induction false} RemoveSepsNone(s: string)
    requires forall j :: 0 <= j < |s| ==> !IsRegSep(s[j])
    ensures RemoveSeps(s) == s
  {
    if s != [] {
      RemoveSepsNone(s[1..]);
    }
  }

  lemma {:induction false} RemoveSepsSkipGaps(s: string)
    ensures RemoveSeps(SkipGaps(s)) == RemoveSeps(s)
  {
    if |s| > 0 && IsGap(s[0]) {
      RemoveSepsSkipGaps(s[1..]);
    }
  }

  /** Collapsing the gaps keeps every character other than a separator,
      in order. */
  lemma {:induction false} CollapseGapsKeeps(s: string)
    ensures RemoveSeps(CollapseGaps(s)) == RemoveSeps(s)
    decreases |s|
  {
    if s != [] {
      if IsGap(s[0]) {
        var t := SkipGaps(s);
        CollapseGapsKeeps(t);
        RemoveSepsSkipGaps(s);
        assert RemoveSeps("_" + CollapseGaps(t)) == RemoveSeps(CollapseGaps(t));
      } else {
        CollapseGapsKeeps(s[1..]);
        assert ([s[0]] + CollapseGaps(s[1..]))[1..] == CollapseGaps(s[1..]);
      }
    }
  }

  /** Skipping a whole run of gaps stops at the first character after it. */
  lemma {:induction false} SkipGapsRun(g: string, b: string)
    requires forall j :: 0 <= j < |g| ==> IsGap(g[j])
    requires b == [] || !IsGap(b[0])
    ensures SkipGaps(g + b) == b
  {
    if g != [] {
      SkipGapsRun(g[1..], b);
      assert (g + b)[1..] == g[1..] + b;
    } else {
      assert g + b == b;
    }
  }

  /** A whole run of whitespace and hyphens, between gap-free text and
      text that does not start with a gap, becomes a single "_". */
  lemma {:induction false} CollapseRun(a: string, g: string, b: string)
    requires forall j :: 0 <= j < |a| ==> !IsGap(a[j])
    requires |g| > 0 && forall j :: 0 <= j < |g| ==> IsGap(g[j])
    requires b == [] || !IsGap(b[0])
    ensures CollapseGaps(a + g + b) == a + "_" + CollapseGaps(b)
  {
    if a == [] {
      assert a + g + b == g + b;
      SkipGapsRun(g, b);
    } else {
      CollapseRun(a[1..], g, b);
      assert (a + g + b)[1..] == a[1..] + g + b;
    }
  }

  /** The number of leading characters that are not capitals. */
  function LeadingNonUpper(s: string): (n: nat)
    ensures n <= |s|
    ensures n == |s| || IsUpper(s[n])
  {
    if |s| > 0 && !IsUpper(s[0]) then 1 + LeadingNonUpper(s[1..]) else 0
  }

  /** `re.sub(r"^[^A-Z]*", "", s)`: drops everything before the first
      capital letter. */
  function DropToFirstUpper(s: string): (r: string)
    ensures |r| <= |s| && r == s[|s| - |r|..]
    ensures r == [] || IsUpper(r[0])
  {
    s[LeadingNonUpper(s)..]
  }

  /** What is dropped holds no capital, so the result starts at the first
      capital letter. */
  lemma {:induction false} DropsNoUpper(s: string)
    ensures forall j :: 0 <= j < |s| - |DropToFirstUpper(s)| ==> !IsUpper(s[j])
  {
    if |s| > 0 && !IsUpper(s[0]) {
      DropsNoUpper(s[1..]);
      assert |s| - |DropToFirstUpper(s)| == 1 + |s[1..]| - |DropToFirstUpper(s[1..])|;
      assert forall j :: 1 <= j < |s| ==> s[j] == s[1..][j - 1];
    }
  }

  /** `\b` at position `i`: a word character on exactly one side. */
  predicate Boundary(s: string, i: nat)
    requires i <= |s|
  {
    (i > 0 && IsWordChar(s[i - 1])) != (i < |s| && IsWordChar(s[i]))
  }

  /** The two groups of the registration pattern: two capitals and two
      digits, then three capitals. */
  predicate RegGroups(g: (string, string)) {
    |g.0| == 4 && |g.1| == 3 && IsUpper(g.0[0]) && IsUpper(g.0[1])
    && IsDigit(g.0[2]) && IsDigit(g.0[3]) && AllUpper(g.1)
  }

  /** `\b([A-Z]{2}\d{2})[\s_-]?([A-Z]{3})\b` matched at `i`: the two groups.
      The optional separator is tried first, as the greedy `?` does. */
  function RegAt(s: string, i: nat): (r: Option<(string, string)>)
    requires i <= |s|
    ensures r.Some? ==> RegGroups(r.value)
  {
    if i + 7 <= |s| && Boundary(s, i) && IsUpper(s[i]) && IsUpper(s[i + 1])
       && IsDigit(s[i + 2]) && IsDigit(s[i + 3])
    then
      if i + 8 <= |s| && IsRegSep(s[i + 4]) && AllUpper(s[i + 5..i + 8]) && Boundary(s, i + 8) then
        Some((s[i..i + 4], s[i + 5..i + 8]))
      else if AllUpper(s[i + 4..i + 7]) && Boundary(s, i + 7) then
        Some((s[i..i + 4], s[i + 4..i + 7]))
      else None
    else None
  }

  /** `re.search` of the registration pattern from `i`: the position of
      the leftmost match. */
  function SearchReg(s: string, i: nat): (r: Option<nat>)
    requires i <= |s|
    ensures r.Some? ==> i <= r.value <= |s| && RegAt(s, r.value).Some?
    ensures r.Some? ==> forall j :: i <= j < r.value ==> RegAt(s, j).None?
    ensures r.None? ==> forall j :: i <= j <= |s| ==> RegAt(s, j).None?
    decreases |s| - i
  {
    if RegAt(s, i).Some? then Some(i)
    else if i == |s| then None
    else SearchReg(s, i + 1)
  }

  /** The shape of a UK registration once its separator is dropped: two
      letters, two digits, three letters. */
  predicate IsUkRegistration(r: string) {
    |r| == 7 && IsUpper(r[0]) && IsUpper(r[1]) && IsDigit(r[2]) && IsDigit(r[3])
    && IsUpper(r[4]) && IsUpper(r[5]) && IsUpper(r[6])
  }

  /** The groups joined form a registration, which holds no gap. */
  lemma JoinedGroups(g: (string, string))
    requires RegGroups(g)
    ensures IsUkRegistration(g.0 + g.1)
    ensures forall j :: 0 <= j < |g.0 + g.1| ==> !IsGap((g.0 + g.1)[j])
  {
    var r := g.0 + g.1;
    assert forall j :: 4 <= j < 7 ==> r[j] == g.1[j - 4];
  }

  /** The non-TMSB reading of an upper-cased, stripped registration:
      everything before the first capital is dropped, then the first
      word-bounded UK registration is returned without its separator, or,
      failing that, the text without any whitespace, "_" or "-". */
  function UkForm(s: string): (r: string)
    ensures forall j :: 0 <= j < |r| ==> !IsGap(r[j])
    ensures SearchReg(DropToFirstUpper(s), 0).Some? ==> IsUkRegistration(r)
    ensures SearchReg(DropToFirstUpper(s), 0).Some? ==>
              var t := DropToFirstUpper(s);
              var g := RegAt(t, SearchReg(t, 0).value).value;
              r == g.0 + g.1
    ensures SearchReg(DropToFirstUpper(s), 0).None? ==> r == RemoveSeps(DropToFirstUpper(s))
  {
    var t := DropToFirstUpper(s);
    var m := SearchReg(t, 0);
    if m.Some? then
      var g := RegAt(t, m.value).value;
      JoinedGroups(g);
      g.0 + g.1
    else RemoveSeps(t)
  }

  /** `normalize_registration`: an empty value is returned as it is. The
      value is upper-cased and stripped; in TMSB format each run of
      whitespace and hyphens becomes "_"; otherwise it is read as a UK
      registration. A normalised registration never holds whitespace or a
      hyphen. */
  function NormalizeRegistration(reg: string, tmsb: bool): (r: string)
    ensures reg == "" ==> r == reg
    ensures reg != "" ==> forall j :: 0 <= j < |r| ==> !IsGap(r[j])
    ensures reg != "" && tmsb ==> r == CollapseGaps(Strip(Upper(reg)))
    ensures reg != "" && !tmsb ==> r == UkForm(Strip(Upper(reg)))
  {
    if reg == "" then reg
    else
      var s := Strip(Upper(reg));
      if tmsb then CollapseGaps(s) else UkForm(s)
  }

  /** Text without gaps is left as it is. */
  lemma {:induction false} CollapseNoGaps(a: string)
    requires forall j :: 0 <= j < |a| ==> !IsGap(a[j])
    ensures CollapseGaps(a) == a
  {
    if a != [] {
      CollapseNoGaps(a[1..]);
    }
  }

  /** The TMSB example of import_vehicles.py:44. */
  lemma TmsbExample(s: string)
    requires s == "RX20-RJV-201"
    ensures NormalizeRegistration(s, true) == "RX20_RJV_201"
  {
    StripUpperPlain(s);
    TmsbCollapse(s);
  }

  /** The gaps of the TMSB example collapse to "_". */
  lemma TmsbCollapse(s: string)
    requires s == "RX20-RJV-201"
    ensures CollapseGaps(s) == "RX20_RJV_201"
  {
    var a, b, c := "RX20", "RJV", "201";
    TmsbParts(s, a, b, c);
    CollapseNoGaps(c);
    CollapseRun(b, "-", c);
    CollapseRun(a, "-", b + "-" + c);
  }

  /** The parts of the TMSB example between its hyphens. */
  lemma TmsbParts(s: string, a: string, b: string, c: string)
    requires s == "RX20-RJV-201" && a == "RX20" && b == "RJV" && c == "201"
    ensures s == a + "-" + (b + "-" + c)
    ensures a + "_" + (b + "_" + c) == "RX20_RJV_201"
    ensures forall j :: 0 <= j < |a| ==> !IsGap(a[j])
    ensures forall j :: 0 <= j < |b| ==> !IsGap(b[j])
    ensures forall j :: 0 <= j < |c| ==> !IsGap(c[j])
  {
  }

  /** Text without lower-case letters and without surrounding whitespace
      is its own upper-cased, stripped form. */
  lemma StripUpperPlain(s: string)
    requires |s| > 0 && !IsSpace(s[0]) && !IsSpace(s[|s| - 1])
    requires forall i :: 0 <= i < |s| ==> !IsLower(s[i])
    ensures Strip(Upper(s)) == s
  {
    UpperNoLower(s);
    assert LStrip(s) == s;
    assert RStrip(s) == s;
  }

  /** The separator example of the docstring: "AB12-CDE" gives "AB12CDE". */
  lemma RegistrationExample(s: string)
    requires s == "AB12-CDE"
    ensures NormalizeRegistration(s, false) == "AB12CDE"
  {
    StripUpperPlain(s);
    assert IsUpper(s[0]);
    assert DropToFirstUpper(s) == s;
    assert IsRegSep(s[4]);
    assert Boundary(s, 0) && Boundary(s, 8);
    assert AllUpper(s[5..8]);
    assert RegAt(s, 0) == Some((s[0..4], s[5..8]));
    assert SearchReg(s, 0) == Some(0);
    assert s[0..4] + s[5..8] == "AB12CDE";
  }

  /** A registration already in the form AB12CDE is its own normal form. */
  lemma RegistrationIsNormal(r: string)
    requires IsUkRegistration(r)
    ensures NormalizeRegistration(r, false) == r
  {
    StripUpperPlain(r);
    assert DropToFirstUpper(r) == r;
    assert Boundary(r, 0) && Boundary(r, 7);
    assert AllUpper(r[4..7]);
    assert RegAt(r, 0) == Some((r[0..4], r[4..7]));
    assert SearchReg(r, 0) == Some(0);
    assert r[0..4] + r[4..7] == r;
  }

  /** The first two of three or more '-' parts are equal. */
  predicate RepeatedHead(s: string) {
    var parts := Split(s, '-');
    |parts| >= 3 && parts[0] == parts[1]
  }

  /** The text holds '-' and its last '-' part is a whole `[a-z]+\d+` code. */
  predicate LowerTailCode(s: string) {
    |Split(s, '-')| >= 2 && IsCode(Last(Split(s, '-')), Lowers)
  }

  /** `normalize_slug`: lower-cased; "a-a-rest" loses its repeated first
      part, leaving what follows the first '-'; otherwise a last part of the
      form `[a-z]+\d+` is returned; else the lower-cased slug. The result is
      always a suffix of the lower-cased slug. */
  function NormalizeSlug(slug: string): (r: string)
    ensures slug == "" ==> r == slug
    ensures EndsWith(Lower(slug), r)
    ensures slug != "" && RepeatedHead(Lower(slug)) ==>
              |Split(Lower(slug), '-')[0]| < |Lower(slug)| &&
              r == Lower(slug)[|Split(Lower(slug), '-')[0]| + 1..]
    ensures slug != "" && !RepeatedHead(Lower(slug)) && LowerTailCode(Lower(slug)) ==>
              r == Last(Split(Lower(slug), '-'))
    ensures slug != "" && !RepeatedHead(Lower(slug)) && !LowerTailCode(Lower(slug)) ==>
              r == Lower(slug)
  {
    if slug == "" then slug
    else
      var s := Lower(slug);
      var parts := Split(s, '-');
      if RepeatedHead(s) then
        DropRepeatedHead(s, parts);
        Join([parts[0]] + parts[2..], '-')
      else if LowerTailCode(s) then
        SplitLast(s, '-');
        Last(parts)
      else s
  }

  /** Joining all parts but the second, when the first two are equal, is
      the string after the first separator. */
  lemma DropRepeatedHead(s: string, parts: seq<string>)
    requires parts == Split(s, '-') && |parts| >= 3 && parts[0] == parts[1]
    ensures |parts[0]| + 1 <= |s|
    ensures Join([parts[0]] + parts[2..], '-') == s[|parts[0]| + 1..]
  {
    JoinSplit(s, '-');
    var rest := Join(parts[2..], '-');
    assert Join(parts[1..], '-') == parts[1] + "-" + rest;
    assert s == parts[0] + "-" + (parts[1] + "-" + rest);
    assert ([parts[0]] + parts[2..])[1..] == parts[2..];
  }

  /** The example of import_vehicles.py:70. */
  lemma SlugExample(s: string)
    requires s == "tnxb-tnxb-e1133"
    ensures NormalizeSlug(s) == "tnxb-e1133"
  {
    var head, code := "tnxb", "e1133";
    SlugParts(s, head, code);
    LowerNoUpper(s);
    SplitThree(head, head, code, '-');
    DropRepeatedHead(s, [head, head, code]);
  }

  /** The parts of the slug example between its hyphens. */
  lemma SlugParts(s: string, head: string, code: string)
    requires s == "tnxb-tnxb-e1133" && head == "tnxb" && code == "e1133"
    ensures s == head + ['-'] + head + ['-'] + code
    ensures '-' !in head && '-' !in code && |head| == 4
    ensures s[5..] == "tnxb-e1133"
    ensures forall i :: 0 <= i < |s| ==> !IsUpper(s[i])
  {
  }

  /** `$` lets a slug's final newline through as well: "tnxb-e1133\n"
      gives "e1133\n". */
  lemma SlugNewline(s: string)
    requires s == "tnxb-e1133\n"
    ensures NormalizeSlug(s) == "e1133\n"
  {
    var code := "e1133\n";
    assert s == "tnxb" + ['-'] + code;
    assert forall i :: 0 <= i < |s| ==> !IsUpper(s[i]);
    LowerNoUpper(s);
    SplitTwo("tnxb", code, '-');
    assert RunEnd(code, 1, Lowers) == 1;
    assert RunEnd(code, 0, Lowers) == 1;
    assert RunEnd(code, 5, Digits) == 5;
    assert RunEnd(code, 4, Digits) == 5;
    assert RunEnd(code, 3, Digits) == 5;
    assert RunEnd(code, 2, Digits) == 5;
    assert RunEnd(code, 1, Digits) == 5;
  }

  /** Lower-casing leaves a string without capitals unchanged. */
  lemma LowerNoUpper(s: string)
    requires forall i :: 0 <= i < |s| ==> !IsUpper(s[i])
    ensures Lower(s) == s
  {
  }

  /** A value of a bustimes.org API record as `dict.get` sees it: a
      missing key, JSON `null`, a string or an integer. */
  datatype ApiValue = Missing | Null | Str(s: string) | Num(n: int)

  /** Python truthiness: a non-empty string or a non-zero number. */
  predicate Truthy(v: ApiValue) {
    match v
    case Str(s) => s != ""
    case Num(n) => n != 0
    case _ => false
  }

  /** `str(v)` of a string or a number. */
  function AsText(v: ApiValue): string
    requires v.Str? || v.Num?
  {
    match v
    case Str(s) => s
    case Num(n) => IntString(n)
  }

  /** `normalize_slug` of an API value: None for `null` or a missing key.
      A falsy value ("" or 0) comes back unchanged, which is the same text
      as its normal form. */
  function SlugCode(v: ApiValue): (r: Option<string>)
    ensures r.None? <==> v.Missing? || v.Null?
    ensures v.Str? ==> r == Some(NormalizeSlug(v.s))
    ensures v.Num? ==> r == Some(NormalizeSlug(IntString(v.n)))
  {
    match v
    case Str(s) => Some(NormalizeSlug(s))
    case Num(n) => Some(NormalizeSlug(IntString(n)))
    case _ => None
  }

  /** A string slug starting "tmsb-". */
  predicate TmsbSlug(v: ApiValue) { v.Str? && StartsWith(v.s, "tmsb-") }

  /** The fields of one bustimes.org API vehicle record that pick its code. */
  datatype VehicleData = VehicleData(reg: ApiValue, slug: ApiValue, fleetNumber: ApiValue)

  /** The code chosen for a record: a value (None for Python's None), or
      the AttributeError of `slug.startswith` on a numeric slug. */
  datatype CodeChoice = Chosen(code: Option<string>) | Raises

  /** The code chosen in `import_vehicles`: the registration when asked for
      and present; else, in TMSB format, the registration read out of a
      "tmsb-" slug of four or more parts (or the record's registration, or
      the normalised slug, where a missing slug reads as "" and a numeric
      one makes `startswith` raise); else the normalised fleet number; else
      the normalised slug (None when there is none). */
  function SelectCode(v: VehicleData, useReg: bool, tmsb: bool): (c: CodeChoice)
    ensures c.Raises? <==> !(useReg && Truthy(v.reg)) && tmsb && v.slug.Num? && v.slug.n != 0
    ensures c == Chosen(None) <==>
              !(useReg && Truthy(v.reg)) &&
              (if tmsb then v.slug.Null? else !Truthy(v.fleetNumber) && (v.slug.Missing? || v.slug.Null?))
    ensures useReg && Truthy(v.reg) ==> c == Chosen(Some(NormalizeRegistration(AsText(v.reg), tmsb)))
    ensures !(useReg && Truthy(v.reg)) && tmsb && TmsbSlug(v.slug) && |Split(v.slug.s, '-')| >= 4 ==>
              c == Chosen(Some(NormalizeRegistration(v.slug.s[5..], true)))
    ensures !(useReg && Truthy(v.reg)) && tmsb && TmsbSlug(v.slug) && |Split(v.slug.s, '-')| < 4 ==>
              c == Chosen(Some(if Truthy(v.reg) then NormalizeRegistration(AsText(v.reg), true)
                               else NormalizeSlug(v.slug.s)))
    ensures !(useReg && Truthy(v.reg)) && tmsb && !TmsbSlug(v.slug) && !(v.slug.Num? && v.slug.n != 0) ==>
              c == Chosen(SlugCode(if v.slug.Missing? then Str("") else v.slug))
    ensures !(useReg && Truthy(v.reg)) && !tmsb && Truthy(v.fleetNumber) ==>
              c == Chosen(Some(NormalizeFleetNumber(AsText(v.fleetNumber))))
    ensures !(useReg && Truthy(v.reg)) && !tmsb && !Truthy(v.fleetNumber) ==> c == Chosen(SlugCode(v.slug))
  {
    if useReg && Truthy(v.reg) then Chosen(Some(NormalizeRegistration(AsText(v.reg), tmsb)))
    else if tmsb then
      var slug := if v.slug.Missing? then Str("") else v.slug;
      if Truthy(slug) && slug.Num? then Raises
      else if Truthy(slug) && StartsWith(slug.s, "tmsb-") then
        var parts := Split(slug.s, '-');
        if |parts| >= 4 then
          TmsbTail(slug.s);
          Chosen(Some(NormalizeRegistration(Join(parts[1..], '-'), tmsb)))
        else if Truthy(v.reg) then Chosen(Some(NormalizeRegistration(AsText(v.reg), tmsb)))
        else Chosen(Some(NormalizeSlug(slug.s)))
      else Chosen(SlugCode(slug))
    else if Truthy(v.fleetNumber) then Chosen(Some(NormalizeFleetNumber(AsText(v.fleetNumber))))
    else Chosen(SlugCode(v.slug))
  }

  /** `"-".join(slug.split("-")[1:])` of a "tmsb-" slug is the text after
      "tmsb-". */
  lemma TmsbTail(slug: string)
    requires StartsWith(slug, "tmsb-")
    ensures Join(Split(slug, '-')[1..], '-') == slug[5..]
  {
    assert slug == "tmsb" + "-" + slug[5..];
    SplitAppend("tmsb", slug[5..], '-');
    JoinSplit(slug[5..], '-');
  }
}
