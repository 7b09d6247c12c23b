/** Source markers in a drafted answer: canonicalised, then matched against the evidence. */
module Citations {
  import opened Text
  import opened Assembler

  // ----- The marker pattern -----

  predicate IsOpen(c: char) {
    c == '[' || c == '\U{3010}'
  }

  predicate IsClose(c: char) {
    c == ']' || c == '\U{3011}'
  }

  /** Where a match of the marker pattern stands after its opening bracket. */
  datatype Place = WantLetter | WantDigit | InDigits | AfterDigits

  function Bump(n: nat): nat {
    if n == 0 then 0 else n + 1
  }

  /** How many more characters complete the marker from a place in it, or 0 when they do not. */
  function Remaining(place: Place, s: string): (n: nat)
    ensures n <= |s|
    decreases s
  {
    if s == "" then 0
    else
      match place
      case WantLetter =>
        if IsSpace(s[0]) then Bump(Remaining(WantLetter, s[1..]))
        else if s[0] == 'S' || s[0] == 's' then Bump(Remaining(WantDigit, s[1..])) else 0
      case WantDigit => if IsDigit(s[0]) then Bump(Remaining(InDigits, s[1..])) else 0
      case InDigits =>
        if IsDigit(s[0]) then Bump(Remaining(InDigits, s[1..]))
        else if IsSpace(s[0]) then Bump(Remaining(AfterDigits, s[1..]))
        else if IsClose(s[0]) then 1 else 0
      case AfterDigits =>
        if IsSpace(s[0]) then Bump(Remaining(AfterDigits, s[1..])) else if IsClose(s[0]) then 1 else 0
  }

  /** The length of the marker `s` starts with, or 0. */
  function MarkerWidth(s: string): (n: nat)
    ensures n <= |s|
  {
    if s != "" && IsOpen(s[0]) then Bump(Remaining(WantLetter, s[1..])) else 0
  }

  function DigitsIn(s: string): string {
    if s == "" then "" else (if IsDigit(s[0]) then [s[0]] else "") + DigitsIn(s[1..])
  }

  /** The upper-cased label of the marker `s` starts with. */
  function LabelAt(s: string): string {
    "S" + DigitsIn(s[..MarkerWidth(s)])
  }

  function Canonical(name: string): string {
    "[" + name + "]"
  }

  /** Every marker replaced by its label in plain brackets. */
  function Normalize(s: string): string
    decreases |s|
  {
    if s == "" then ""
    else if MarkerWidth(s) > 0 then Canonical(LabelAt(s)) + Normalize(s[MarkerWidth(s)..])
    else [s[0]] + Normalize(s[1..])
  }

  /** The labels of all markers, in order. */
  function Labels(s: string): seq<string>
    decreases |s|
  {
    if s == "" then []
    else if MarkerWidth(s) > 0 then [LabelAt(s)] + Labels(s[MarkerWidth(s)..])
    else Labels(s[1..])
  }

  /** The length of the strict marker `[S1]` that `s` starts with, or 0. */
  function StrictWidth(s: string): (n: nat)
    ensures n <= |s| && (n > 0 ==> n >= 4)
  {
    if |s| < 2 || s[0] != '[' || s[1] != 'S' then 0
    else
      var n := DigitRun(s[2..]);
      if n > 0 && 2 + n < |s| && s[2 + n] == ']' then n + 3 else 0
  }

  /** The ids that a search for strict markers finds, in order. */
  function FindIds(s: string): seq<string>
    decreases |s|
  {
    if s == "" then []
    else if StrictWidth(s) > 0 then [s[1..StrictWidth(s) - 1]] + FindIds(s[StrictWidth(s)..])
    else FindIds(s[1..])
  }

  method SubstituteMarkers(s: string) returns (normalized: string)
    ensures normalized == Normalize(s)
  {
    hide MarkerWidth, LabelAt, Canonical, Normalize;
    normalized := "";
    var rest := s;
    assert normalized + Normalize(s) == Normalize(s);
    while rest != ""
      invariant Normalize(s) == normalized + Normalize(rest)
      decreases |rest|
    {
      SubstitutionStep(normalized, rest);
      var width := MarkerWidth(rest);
      if width > 0 {
        normalized := normalized + Canonical(LabelAt(rest));
        rest := rest[width..];
      } else {
        normalized := normalized + [rest[0]];
        rest := rest[1..];
      }
    }
    SubstitutionStep(normalized, rest);
  }

  lemma SubstitutionStep(copied: string, rest: string)
    ensures copied + Normalize(rest)
         == if rest == "" then copied
            else if MarkerWidth(rest) > 0 then copied + Canonical(LabelAt(rest)) + Normalize(rest[MarkerWidth(rest)..])
            else copied + [rest[0]] + Normalize(rest[1..])
  {
    hide MarkerWidth, LabelAt, Canonical, Normalize;
    if rest == "" {
      assert Normalize(rest) == "" by { NothingNormal(); }
      assert copied + "" == copied;
    } else {
      var piece, later := FirstOfNormal(rest);
      Regroup(copied, piece, later);
    }
  }

  lemma FirstOfNormal(rest: string) returns (piece: string, later: string)
    requires rest != ""
    ensures Normalize(rest) == piece + later
    ensures var width := MarkerWidth(rest);
            if width > 0 then piece == Canonical(LabelAt(rest)) && later == Normalize(rest[width..])
            else piece == [rest[0]] && later == Normalize(rest[1..])
  {
    hide MarkerWidth, LabelAt, Canonical;
    if MarkerWidth(rest) > 0 {
      piece, later := Canonical(LabelAt(rest)), Normalize(rest[MarkerWidth(rest)..]);
    } else {
      piece, later := [rest[0]], Normalize(rest[1..]);
    }
  }

  lemma NothingNormal()
    ensures Normalize("") == ""
  {
  }

  // ----- Rewriting is stable -----

  lemma {:induction false} RemainingStops(place: Place, s: string)
    requires s != "" && IsOpen(s[0])
    ensures Remaining(place, s) == 0
  {
  }

  /** Looking ahead finds a marker's end in `t` exactly when it finds one in `s`. */
  predicate SameAhead(s: string, t: string) {
    forall place :: Remaining(place, s) > 0 <==> Remaining(place, t) > 0
  }

  lemma SameAheadCons(c: char, s: string, t: string)
    requires SameAhead(s, t)
    ensures SameAhead([c] + s, [c] + t)
  {
    assert ([c] + s)[1..] == s && ([c] + t)[1..] == t;
    assert forall place :: Remaining(place, s) > 0 <==> Remaining(place, t) > 0;
    forall place ensures Remaining(place, [c] + s) > 0 <==> Remaining(place, [c] + t) > 0 {
      assert Remaining(WantLetter, s) > 0 <==> Remaining(WantLetter, t) > 0;
      assert Remaining(WantDigit, s) > 0 <==> Remaining(WantDigit, t) > 0;
      assert Remaining(InDigits, s) > 0 <==> Remaining(InDigits, t) > 0;
      assert Remaining(AfterDigits, s) > 0 <==> Remaining(AfterDigits, t) > 0;
    }
  }

  lemma SameAheadStops(s: string, t: string)
    requires s != "" && IsOpen(s[0]) && t != "" && IsOpen(t[0])
    ensures SameAhead(s, t)
  {
    forall place ensures Remaining(place, s) == 0 && Remaining(place, t) == 0 {
      RemainingStops(place, s);
      RemainingStops(place, t);
    }
  }

  /** Looking ahead through rewritten text finds a marker's end exactly when the raw text has one. */
  lemma {:induction false} AheadThroughNormalize(s: string)
    ensures SameAhead(s, Normalize(s))
    decreases |s|
  {
    hide SameAhead;
    if s == "" {
      assert SameAhead("", "") by { SameAheadSelf(""); }
    } else if MarkerWidth(s) > 0 {
      SameAheadStops(s, Normalize(s));
    } else {
      AheadThroughNormalize(s[1..]);
      SameAheadCons(s[0], s[1..], Normalize(s[1..]));
      assert s == [s[0]] + s[1..];
    }
  }

  lemma SameAheadSelf(s: string)
    ensures SameAhead(s, s)
  {
  }

  /** A character that starts no marker starts none before rewritten text either. */
  lemma CopiedStartsNoMarker(s: string)
    requires s != "" && MarkerWidth(s) == 0
    ensures MarkerWidth([s[0]] + Normalize(s[1..])) == 0
  {
    var n := [s[0]] + Normalize(s[1..]);
    assert n[1..] == Normalize(s[1..]);
    AheadThroughNormalize(s[1..]);
    assert Remaining(WantLetter, s[1..]) > 0 <==> Remaining(WantLetter, Normalize(s[1..])) > 0;
  }

  lemma {:induction false} RemainingDigits(digits: string, rest: string)
    requires AllDigits(digits)
    ensures Remaining(InDigits, digits + "]" + rest) == |digits| + 1
    ensures DigitRun(digits + "]" + rest) == |digits|
  {
    var s := digits + "]" + rest;
    if digits != "" {
      assert s[1..] == digits[1..] + "]" + rest;
      assert AllDigits(digits[1..]) by {
        assert forall i :: 0 <= i < |digits[1..]| ==> digits[1..][i] == digits[i + 1];
      }
      RemainingDigits(digits[1..], rest);
    }
  }

  lemma {:induction false} DigitsInAll(s: string)
    requires AllDigits(s)
    ensures DigitsIn(s) == s
  {
    if s != "" {
      assert AllDigits(s[1..]) by { assert forall i :: 0 <= i < |s[1..]| ==> s[1..][i] == s[i + 1]; }
      DigitsInAll(s[1..]);
    }
  }

  lemma DigitsInFirst(s: string)
    requires s != ""
    ensures DigitsIn(s) == DigitsIn([s[0]]) + DigitsIn(s[1..])
  {
    assert [s[0]][1..] == "";
  }

  lemma {:induction false} DigitsInConcat(a: string, b: string)
    ensures DigitsIn(a + b) == DigitsIn(a) + DigitsIn(b)
  {
    if a == "" {
      assert a + b == b;
    } else {
      assert (a + b)[1..] == a[1..] + b;
      DigitsInConcat(a[1..], b);
      DigitsInFirst(a + b);
      DigitsInFirst(a);
      var first := DigitsIn([a[0]]);
      assert first + (DigitsIn(a[1..]) + DigitsIn(b)) == first + DigitsIn(a[1..]) + DigitsIn(b);
    }
  }

  lemma {:induction false} DigitsInAreDigits(s: string)
    ensures AllDigits(DigitsIn(s))
  {
    if s != "" {
      DigitsInAreDigits(s[1..]);
    }
  }

  lemma RemainingFromLetter(digits: string, rest: string)
    requires digits != "" && AllDigits(digits)
    ensures Remaining(WantLetter, "S" + (digits + "]" + rest)) == |digits| + 2
  {
    var number := digits + "]" + rest;
    assert number[1..] == digits[1..] + "]" + rest && number[0] == digits[0];
    assert AllDigits(digits[1..]) by { assert forall i :: 0 <= i < |digits[1..]| ==> digits[1..][i] == digits[i + 1]; }
    RemainingDigits(digits[1..], rest);
    assert Remaining(WantDigit, number) == |digits| + 1;
    assert ("S" + number)[1..] == number && ("S" + number)[0] == 'S';
  }

  lemma CanonicalDigits(digits: string)
    requires AllDigits(digits)
    ensures DigitsIn(Canonical("S" + digits)) == digits
  {
    assert Canonical("S" + digits) == "[S" + digits + "]";
    DigitsInConcat("[S" + digits, "]");
    DigitsInConcat("[S", digits);
    DigitsInAll(digits);
    NoDigits();
  }

  /** A canonical marker is a marker, loose and strict, of its own label. */
  lemma CanonicalIsMarker(digits: string, rest: string)
    requires digits != "" && AllDigits(digits)
    ensures var s := Canonical("S" + digits) + rest;
            && MarkerWidth(s) == |digits| + 3 && LabelAt(s) == "S" + digits
            && StrictWidth(s) == |digits| + 3 && s[1..|digits| + 2] == "S" + digits
            && s[|digits| + 3..] == rest
  {
    hide Remaining, DigitsIn;
    var s := Canonical("S" + digits) + rest;
    var number := digits + "]" + rest;
    assert s[1..] == "S" + number && s[2..] == number;
    RemainingFromLetter(digits, rest);
    RemainingDigits(digits, rest);
    assert s[..|digits| + 3] == Canonical("S" + digits);
    CanonicalDigits(digits);
  }

  lemma NoDigits()
    ensures DigitsIn("[S") == "" && DigitsIn("]") == ""
  {
    assert "[S"[1..] == "S" && "S"[1..] == "" && "]"[1..] == "";
    assert DigitsIn("S") == "";
  }

  lemma {:induction false} RemainingHasDigits(place: Place, s: string)
    requires Remaining(place, s) > 0 && (place == WantLetter || place == WantDigit)
    ensures DigitsIn(s[..Remaining(place, s)]) != ""
    decreases s
  {
    var n := Remaining(place, s);
    assert s[..n] == [s[0]] + s[1..][..n - 1];
    assert s[..n][1..] == s[1..][..n - 1];
    if place == WantLetter {
      RemainingHasDigits(if IsSpace(s[0]) then WantLetter else WantDigit, s[1..]);
    }
  }

  /** A label names at least one digit. */
  lemma LabelHasDigits(s: string)
    requires MarkerWidth(s) > 0
    ensures var digits := DigitsIn(s[..MarkerWidth(s)]);
            digits != "" && AllDigits(digits) && LabelAt(s) == "S" + digits
  {
    var n := MarkerWidth(s);
    RemainingHasDigits(WantLetter, s[1..]);
    assert s[..n][1..] == s[1..][..n - 1];
    DigitsInAreDigits(s[..n]);
  }

  /** Rewriting the markers of an answer twice changes nothing. */
  lemma {:induction false} NormalizeIdempotent(s: string)
    ensures Normalize(Normalize(s)) == Normalize(s)
    decreases |s|
  {
    hide MarkerWidth, LabelAt;
    if s != "" {
      var n := Normalize(s);
      if MarkerWidth(s) > 0 {
        LabelHasDigits(s);
        var rest := Normalize(s[MarkerWidth(s)..]);
        CanonicalIsMarker(DigitsIn(s[..MarkerWidth(s)]), rest);
        NormalizeIdempotent(s[MarkerWidth(s)..]);
      } else {
        CopiedStartsNoMarker(s);
        NormalizeIdempotent(s[1..]);
        assert n[0] == s[0] && n[1..] == Normalize(s[1..]);
      }
    }
  }

  lemma StrictIsMarker(s: string)
    requires StrictWidth(s) > 0
    ensures MarkerWidth(s) > 0
  {
    var n := DigitRun(s[2..]);
    var digits, rest := s[2..2 + n], s[n + 3..];
    assert AllDigits(digits);
    assert s == Canonical("S" + digits) + rest;
    CanonicalIsMarker(digits, rest);
  }

  /** The ids found in the rewritten answer are exactly the labels of the raw answer's markers, in order. */
  lemma {:induction false} FoundIdsAreLabels(s: string)
    ensures FindIds(Normalize(s)) == Labels(s)
    decreases |s|
  {
    hide MarkerWidth, LabelAt, StrictWidth;
    if s != "" {
      var n := Normalize(s);
      if MarkerWidth(s) > 0 {
        LabelHasDigits(s);
        var rest := Normalize(s[MarkerWidth(s)..]);
        CanonicalIsMarker(DigitsIn(s[..MarkerWidth(s)]), rest);
        FoundIdsAreLabels(s[MarkerWidth(s)..]);
      } else {
        CopiedStartsNoMarker(s);
        if StrictWidth(n) > 0 { StrictIsMarker(n); }
        FoundIdsAreLabels(s[1..]);
        assert n[1..] == Normalize(s[1..]);
      }
    }
  }

  // ----- Citations of the evidence -----

  function DecimalDigit(d: nat): char
    requires d < 10
  {
    "0123456789"[d]
  }

  function Decimal(n: nat): string {
    if n < 10 then [DecimalDigit(n)] else Decimal(n / 10) + [DecimalDigit(n % 10)]
  }

  lemma DecimalParts(n: nat)
    ensures var s := Decimal(n);
            s != "" && s[|s| - 1] == DecimalDigit(n % 10) && s[..|s| - 1] == if n < 10 then "" else Decimal(n / 10)
  {
  }

  lemma DigitsDiffer(c: nat, d: nat)
    requires c < 10 && d < 10 && DecimalDigit(c) == DecimalDigit(d)
    ensures c == d
  {
  }

  lemma {:induction false} DecimalInjective(m: nat, n: nat)
    requires Decimal(m) == Decimal(n)
    ensures m == n
    decreases m
  {
    hide Decimal, DecimalDigit;
    DecimalParts(m);
    DecimalParts(n);
    DigitsDiffer(m % 10, n % 10);
    if m >= 10 && n >= 10 {
      DecimalInjective(m / 10, n / 10);
    } else if m >= 10 {
      DecimalParts(m / 10);
    } else if n >= 10 {
      DecimalParts(n / 10);
    }
  }

  /** The id of the evidence at a place: `S1`, `S2`, and so on. */
  function SourceId(i: nat): string {
    "S" + Decimal(i + 1)
  }

  /** A citation of one piece of evidence. */
  datatype Citation = Citation(sourceId: string, source: Candidate)

  function CitationsOf(evidence: seq<Candidate>): (citations: seq<Citation>)
    ensures |citations| == |evidence|
  {
    seq(|evidence|, i requires 0 <= i < |evidence| => Citation(SourceId(i), evidence[i]))
  }

  /** The citations, in evidence order, whose ids the answer names. */
  function Used(citations: seq<Citation>, ids: seq<string>): seq<Citation> {
    if citations == [] then []
    else (if citations[0].sourceId in ids then [citations[0]] else []) + Used(citations[1..], ids)
  }

  /** The citation at place `j` of the evidence, which the answer names. */
  ghost predicate Cites(evidence: seq<Candidate>, ids: seq<string>, c: Citation, j: nat) {
    j < |evidence| && c == Citation(SourceId(j), evidence[j]) && SourceId(j) in ids
  }

  ghost predicate CitesFrom(evidence: seq<Candidate>, ids: seq<string>, base: nat, used: seq<Citation>,
                            places: seq<nat>) {
    && |places| == |used|
    && (forall i :: 0 <= i < |used| ==> base <= places[i] && Cites(evidence, ids, used[i], places[i]))
    && (forall i, k :: 0 <= i < k < |places| ==> places[i] < places[k])
    && (forall j :: base <= j < |evidence| && SourceId(j) in ids ==> j in places)
  }

  lemma {:induction false} UsedFrom(evidence: seq<Candidate>, ids: seq<string>, base: nat) returns (places: seq<nat>)
    requires base <= |evidence|
    ensures CitesFrom(evidence, ids, base, Used(CitationsOf(evidence)[base..], ids), places)
    decreases |evidence| - base
  {
    hide SourceId, Cites;
    var all := CitationsOf(evidence);
    if base == |evidence| {
      places := [];
    } else {
      var rest := UsedFrom(evidence, ids, base + 1);
      assert all[base..][1..] == all[base + 1..] && all[base..][0] == Citation(SourceId(base), evidence[base]);
      if SourceId(base) in ids {
        places := [base] + rest;
        CitesHere(evidence, ids, base);
        UsedOne(evidence, ids, base, Used(all[base + 1..], ids), rest);
      } else {
        places := rest;
        UsedNone(evidence, ids, base, Used(all[base + 1..], ids), rest);
      }
    }
  }

  lemma CitesHere(evidence: seq<Candidate>, ids: seq<string>, j: nat)
    requires j < |evidence| && SourceId(j) in ids
    ensures Cites(evidence, ids, Citation(SourceId(j), evidence[j]), j)
  {
  }

  lemma UsedOne(evidence: seq<Candidate>, ids: seq<string>, base: nat, used: seq<Citation>, places: seq<nat>)
    requires base < |evidence| && SourceId(base) in ids
    requires CitesFrom(evidence, ids, base + 1, used, places)
    ensures CitesFrom(evidence, ids, base, [Citation(SourceId(base), evidence[base])] + used, [base] + places)
  {
    hide SourceId, Cites;
    CitesHere(evidence, ids, base);
    var all, at := [Citation(SourceId(base), evidence[base])] + used, [base] + places;
    forall i | 0 <= i < |all| ensures base <= at[i] && Cites(evidence, ids, all[i], at[i]) {
      if i > 0 { assert at[i] == places[i - 1] && all[i] == used[i - 1]; }
    }
    forall i, k | 0 <= i < k < |at| ensures at[i] < at[k] {
      assert at[k] == places[k - 1];
      if i > 0 { assert at[i] == places[i - 1]; }
    }
    forall j | base <= j < |evidence| && SourceId(j) in ids ensures j in at {
      if j == base { assert at[0] == j; } else { assert j in places; }
    }
  }

  lemma UsedNone(evidence: seq<Candidate>, ids: seq<string>, base: nat, used: seq<Citation>, places: seq<nat>)
    requires base < |evidence| && SourceId(base) !in ids
    requires CitesFrom(evidence, ids, base + 1, used, places)
    ensures CitesFrom(evidence, ids, base, used, places)
  {
    hide SourceId, Cites;
  }

  /**
   The citations returned are exactly those of the evidence pieces whose ids the raw answer marks, in
   evidence order and once each, however the markers were written.
   */
  lemma CitationsAreTheMarkedEvidence(evidence: seq<Candidate>, raw: string) returns (places: seq<nat>)
    ensures CitesFrom(evidence, Labels(raw), 0, Used(CitationsOf(evidence), FindIds(Normalize(raw))), places)
  {
    hide CitesFrom;
    FoundIdsAreLabels(raw);
    places := UsedFrom(evidence, Labels(raw), 0);
    assert CitationsOf(evidence)[0..] == CitationsOf(evidence);
  }

  /** Different places have different ids, so a marker names at most one piece of evidence. */
  lemma SourceIdsDistinct(i: nat, j: nat)
    requires SourceId(i) == SourceId(j)
    ensures i == j
  {
    assert SourceId(i)[1..] == Decimal(i + 1) && SourceId(j)[1..] == Decimal(j + 1);
    DecimalInjective(i + 1, j + 1);
  }

  // ----- What the source ids say -----

  /** The number that a row of digits writes. */
  function ValueOf(digits: string): int {
    if digits == "" then 0 else 10 * ValueOf(digits[..|digits| - 1]) + (digits[|digits| - 1] as int - '0' as int)
  }

  lemma DigitReads(d: nat)
    requires d < 10
    ensures DecimalDigit(d) as int == '0' as int + d && IsDigit(DecimalDigit(d))
  {
  }

  lemma {:induction false} DecimalReads(n: nat)
    ensures AllDigits(Decimal(n)) && ValueOf(Decimal(n)) == n
    ensures n > 0 ==> Decimal(n)[0] != '0'
    decreases n
  {
    hide DecimalDigit;
    DigitReads(n % 10);
    if n < 10 {
      assert Decimal(n)[..0] == "" && ValueOf("") == 0;
    } else {
      DecimalReads(n / 10);
      var s := Decimal(n);
      assert s[..|s| - 1] == Decimal(n / 10);
    }
  }

  /** The evidence at place `i` has the id S and then the number `i + 1`, written without leading zeros. */
  lemma SourceIdReads(i: nat)
    ensures var id := SourceId(i);
            && |id| > 1 && id[0] == 'S' && AllDigits(id[1..]) && id[1] != '0' && ValueOf(id[1..]) == i + 1
  {
    hide Decimal, ValueOf;
    DecimalReads(i + 1);
    DecimalParts(i + 1);
    assert SourceId(i)[1..] == Decimal(i + 1);
  }

  // ----- What normalising does to a text -----

  /**
   A marker: an opening bracket, an S of either case, digits, a closing bracket, and whitespace within the
   brackets.
   */
  ghost predicate MarkerShape(raw: string, digits: string) {
    digits != "" && AllDigits(digits)
    && exists open, lead, letter, trail, close :: IsMarker(raw, open, lead, letter, digits, trail, close)
  }

  predicate IsMarker(raw: string, open: char, lead: string, letter: char, digits: string, trail: string, close: char) {
    && IsOpen(open) && Blank(lead) && letter in {'S', 's'} && Blank(trail) && IsClose(close)
    && raw == [open] + (lead + ([letter] + (digits + (trail + [close]))))
  }

  lemma {:induction false} RemainingSpaces(place: Place, lead: string, rest: string)
    requires Blank(lead) && (place == WantLetter || place == AfterDigits)
    ensures Remaining(place, rest) > 0 ==> Remaining(place, lead + rest) == |lead| + Remaining(place, rest)
  {
    if lead == "" {
      assert lead + rest == rest;
    } else {
      assert (lead + rest)[1..] == lead[1..] + rest;
      assert Blank(lead[1..]) by { assert forall i :: 0 <= i < |lead[1..]| ==> lead[1..][i] == lead[i + 1]; }
      RemainingSpaces(place, lead[1..], rest);
    }
  }

  lemma {:induction false} RemainingInDigits(digits: string, trail: string, close: char, rest: string)
    requires AllDigits(digits) && Blank(trail) && IsClose(close)
    ensures Remaining(InDigits, digits + (trail + ([close] + rest))) == |digits| + |trail| + 1
    decreases digits
  {
    var s := digits + (trail + ([close] + rest));
    if digits != "" {
      assert s[1..] == digits[1..] + (trail + ([close] + rest));
      assert AllDigits(digits[1..]) by {
        assert forall i :: 0 <= i < |digits[1..]| ==> digits[1..][i] == digits[i + 1];
      }
      RemainingInDigits(digits[1..], trail, close, rest);
    } else {
      assert s == trail + ([close] + rest);
      if trail == "" {
        assert s == [close] + rest;
      } else {
        assert s[1..] == trail[1..] + ([close] + rest);
        assert Blank(trail[1..]) by { assert forall i :: 0 <= i < |trail[1..]| ==> trail[1..][i] == trail[i + 1]; }
        assert ([close] + rest)[0] == close && Remaining(AfterDigits, [close] + rest) == 1;
        RemainingSpaces(AfterDigits, trail[1..], [close] + rest);
      }
    }
  }

  lemma {:induction false} DigitsInBlank(s: string)
    requires forall i :: 0 <= i < |s| ==> !IsDigit(s[i])
    ensures DigitsIn(s) == ""
  {
    if s != "" {
      assert forall i :: 0 <= i < |s[1..]| ==> s[1..][i] == s[i + 1];
      DigitsInBlank(s[1..]);
    }
  }

  /** A text that starts with a marker is read as that marker, with that label. */
  lemma MarkerIsRead(raw: string, digits: string, rest: string)
    requires MarkerShape(raw, digits)
    ensures MarkerWidth(raw + rest) == |raw| && LabelAt(raw + rest) == "S" + digits
  {
    hide Remaining, DigitsIn, Blank;
    var open, lead, letter, trail, close :| IsMarker(raw, open, lead, letter, digits, trail, close);
    var s := raw + rest;
    var afterLead := [letter] + (digits + (trail + ([close] + rest)));
    assert s == [open] + (lead + afterLead);
    assert s[1..] == lead + afterLead;
    RemainingInDigits(digits, trail, close, rest);
    LetterThenDigits(letter, digits, trail + ([close] + rest));
    RemainingSpaces(WantLetter, lead, afterLead);
    assert s[..|raw|] == raw;
    MarkerDigits(raw, open, lead, letter, digits, trail, close);
  }

  lemma LetterThenDigits(letter: char, digits: string, rest: string)
    requires letter in {'S', 's'} && digits != "" && AllDigits(digits) && Remaining(InDigits, digits + rest) > 0
    ensures Remaining(WantLetter, [letter] + (digits + rest)) == 1 + Remaining(InDigits, digits + rest)
  {
    var s := [letter] + (digits + rest);
    assert s[1..] == digits + rest;
    assert s[1..][1..] == digits[1..] + rest;
    assert Remaining(InDigits, s[1..]) == Bump(Remaining(InDigits, s[1..][1..]));
  }

  lemma MarkerDigits(raw: string, open: char, lead: string, letter: char, digits: string, trail: string, close: char)
    requires AllDigits(digits) && IsMarker(raw, open, lead, letter, digits, trail, close)
    ensures DigitsIn(raw) == digits
  {
    hide DigitsIn;
    DigitsInConcat([open], lead + ([letter] + (digits + (trail + [close]))));
    DigitsInConcat(lead, [letter] + (digits + (trail + [close])));
    DigitsInConcat([letter], digits + (trail + [close]));
    DigitsInConcat(digits, trail + [close]);
    DigitsInConcat(trail, [close]);
    DigitsInBlank([open]);
    DigitsInBlank(lead);
    DigitsInBlank([letter]);
    DigitsInBlank(trail);
    DigitsInBlank([close]);
    DigitsInAll(digits);
  }

  /** What is read as a marker is one. */
  lemma {:induction false} AfterDigitsIs(s: string) returns (trail: string, close: char)
    requires Remaining(AfterDigits, s) > 0
    ensures Blank(trail) && IsClose(close) && s[..Remaining(AfterDigits, s)] == trail + [close]
    decreases s
  {
    if IsSpace(s[0]) {
      trail, close := AfterDigitsIs(s[1..]);
      trail := [s[0]] + trail;
      assert s[..Remaining(AfterDigits, s)] == [s[0]] + s[1..][..Remaining(AfterDigits, s[1..])];
    } else {
      trail, close := "", s[0];
      assert s[..1] == "" + [s[0]];
    }
  }

  lemma {:induction false} InDigitsIs(s: string) returns (digits: string, trail: string, close: char)
    requires Remaining(InDigits, s) > 0
    ensures AllDigits(digits) && Blank(trail) && IsClose(close)
    ensures s[..Remaining(InDigits, s)] == digits + (trail + [close])
    decreases s
  {
    if IsDigit(s[0]) {
      digits, trail, close := InDigitsIs(s[1..]);
      assert s[..Remaining(InDigits, s)] == [s[0]] + s[1..][..Remaining(InDigits, s[1..])];
      assert [s[0]] + (digits + (trail + [close])) == ([s[0]] + digits) + (trail + [close]);
      digits := [s[0]] + digits;
    } else if IsSpace(s[0]) {
      trail, close := AfterDigitsIs(s[1..]);
      assert s[..Remaining(InDigits, s)] == [s[0]] + s[1..][..Remaining(AfterDigits, s[1..])];
      trail := [s[0]] + trail;
      digits := "";
      assert digits + (trail + [close]) == trail + [close];
    } else {
      digits, trail, close := "", "", s[0];
      assert s[..1] == digits + (trail + [close]);
    }
  }

  lemma {:induction false} WantLetterIs(s: string)
    returns (lead: string, letter: char, digits: string, trail: string, close: char)
    requires Remaining(WantLetter, s) > 0
    ensures Blank(lead) && letter in {'S', 's'} && digits != "" && AllDigits(digits) && Blank(trail) && IsClose(close)
    ensures s[..Remaining(WantLetter, s)] == lead + ([letter] + (digits + (trail + [close])))
    decreases s
  {
    var n := Remaining(WantLetter, s);
    if IsSpace(s[0]) {
      lead, letter, digits, trail, close := WantLetterIs(s[1..]);
      assert s[..n] == [s[0]] + s[1..][..n - 1];
      var rest := [letter] + (digits + (trail + [close]));
      assert [s[0]] + (lead + rest) == ([s[0]] + lead) + rest;
      lead := [s[0]] + lead;
    } else {
      lead, letter := "", s[0];
      var later := s[1..][1..];
      digits, trail, close := InDigitsIs(later);
      assert s[..n] == [s[0]] + ([s[1..][0]] + later[..n - 2]);
      assert [s[1..][0]] + (digits + (trail + [close])) == ([s[1..][0]] + digits) + (trail + [close]);
      digits := [s[1..][0]] + digits;
      assert lead + ([letter] + (digits + (trail + [close]))) == [letter] + (digits + (trail + [close]));
    }
  }

  lemma ReadIsMarker(s: string) returns (digits: string)
    requires MarkerWidth(s) > 0
    ensures MarkerShape(s[..MarkerWidth(s)], digits) && LabelAt(s) == "S" + digits
  {
    hide Remaining, DigitsIn;
    var lead, letter, trail, close;
    lead, letter, digits, trail, close := WantLetterIs(s[1..]);
    var n := MarkerWidth(s);
    assert s[..n] == [s[0]] + s[1..][..n - 1];
    assert IsMarker(s[..n], s[0], lead, letter, digits, trail, close);
    MarkerDigits(s[..n], s[0], lead, letter, digits, trail, close);
  }

  ghost predicate StartsMarker(s: string, n: nat, digits: string) {
    0 < n <= |s| && MarkerShape(s[..n], digits)
  }

  /**
   The text is copied character by character, but for markers, read from the left: each becomes its label, with
   a capital S, in plain brackets.
   */
  ghost predicate Rewrites(s: string, out: string)
    decreases |s|
  {
    || (s == "" && out == "")
    || (exists n: nat, digits :: StartsMarker(s, n, digits) && "[S" + digits + "]" <= out
                                 && Rewrites(s[n..], out[|digits| + 3..]))
    || ((forall n: nat, digits :: !StartsMarker(s, n, digits))
        && s != "" && out != "" && out[0] == s[0] && Rewrites(s[1..], out[1..]))
  }

  /** A text that starts with a marker becomes its label, and what follows is rewritten on its own. */
  lemma MarkerRewritten(s: string)
    requires MarkerWidth(s) > 0 && Rewrites(s[MarkerWidth(s)..], Normalize(s[MarkerWidth(s)..]))
    ensures Rewrites(s, Normalize(s))
  {
    hide MarkerShape, MarkerWidth, LabelAt;
    var n := MarkerWidth(s);
    var digits := ReadIsMarker(s);
    var mark, rest := "[S" + digits + "]", Normalize(s[n..]);
    assert Normalize(s) == mark + rest;
    assert (mark + rest)[|digits| + 3..] == rest && mark <= mark + rest;
    assert StartsMarker(s, n, digits);
  }

  lemma CharacterCopied(s: string)
    requires s != "" && MarkerWidth(s) == 0 && Rewrites(s[1..], Normalize(s[1..]))
    ensures Rewrites(s, Normalize(s))
  {
    hide StartsMarker, MarkerWidth, LabelAt;
    assert Normalize(s) == [s[0]] + Normalize(s[1..]);
    assert Normalize(s)[1..] == Normalize(s[1..]);
    forall n: nat, digits ensures !StartsMarker(s, n, digits) { NoMarkerStarts(s, n, digits); }
  }

  lemma NoMarkerStarts(s: string, n: nat, digits: string)
    requires MarkerWidth(s) == 0
    ensures !StartsMarker(s, n, digits)
  {
    hide MarkerWidth, LabelAt, MarkerShape;
    if StartsMarker(s, n, digits) {
      assert s == s[..n] + s[n..];
      MarkerIsRead(s[..n], digits, s[n..]);
    }
  }

  lemma {:induction false} NormalizeRewrites(s: string)
    ensures Rewrites(s, Normalize(s))
    decreases |s|
  {
    hide MarkerWidth, StartsMarker;
    if s != "" {
      if MarkerWidth(s) > 0 {
        NormalizeRewrites(s[MarkerWidth(s)..]);
        MarkerRewritten(s);
      } else {
        NormalizeRewrites(s[1..]);
        CharacterCopied(s);
      }
    }
  }
}
