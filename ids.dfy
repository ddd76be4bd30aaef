/**
 * Record identifiers: the `DecimalFormat("doc000")` formatting of a number
 * behind a three-letter prefix, lookup of the first record whose id equals a
 * query ignoring case, and the linear probe that picks the next free id.
 * Everything here works on the sequence of stored ids, in list order.
 */
module Ids {
  import opened Common
  import opened CaseFold

  /** DecimalFormat pads the number to at least this many digits. */
  const MinDigits: nat := 3

  function DigitChar(d: nat): char
    requires d < 10
  {
    ('0' as int + d) as char
  }

  /** The decimal digits of n, most significant first, without padding. */
  function Decimal(n: nat): string
    decreases n
  {
    if n < 10 then [DigitChar(n)] else Decimal(n / 10) + [DigitChar(n % 10)]
  }

  function Zeros(k: nat): string {
    seq(k, _ => '0')
  }

  /** The digits of n, zero-padded on the left to at least MinDigits. */
  function Padded(n: nat): string {
    var d := Decimal(n);
    if |d| < MinDigits then Zeros(MinDigits - |d|) + d else d
  }

  /** `new DecimalFormat(prefix + "000").format(n)`: e.g. Format("hos", 3) is "hos003". */
  function Format(prefix: string, n: nat): string {
    prefix + Padded(n)
  }

  predicate IsDigit(c: char) {
    '0' <= c <= '9'
  }

  predicate AllDigits(s: string) {
    forall i | 0 <= i < |s| :: IsDigit(s[i])
  }

  /** The number a string of decimal digits denotes. */
  function Value(s: string): nat
    requires AllDigits(s)
    decreases |s|
  {
    if s == [] then 0 else Value(s[..|s| - 1]) * 10 + (s[|s| - 1] as int - '0' as int)
  }

  /**
   * Reads an id back as a number: Some(n) when id is the prefix (ignoring
   * case) followed by one or more decimal digits denoting n.
   */
  function NumberOf(prefix: string, id: string): Option<nat> {
    if |prefix| < |id| && EqualsIgnoreCase(id[..|prefix|], prefix) && AllDigits(id[|prefix|..])
    then Some(Value(id[|prefix|..]))
    else None
  }

  lemma {:induction false} DecimalRoundTrip(n: nat)
    ensures |Decimal(n)| > 0 && AllDigits(Decimal(n)) && Value(Decimal(n)) == n
    decreases n
  {
    if n >= 10 {
      DecimalRoundTrip(n / 10);
      var d := Decimal(n);
      assert d[..|d| - 1] == Decimal(n / 10);
    }
  }

  lemma {:induction false} LeadingZerosIgnored(k: nat, t: string)
    requires AllDigits(t)
    ensures AllDigits(Zeros(k) + t) && Value(Zeros(k) + t) == Value(t)
    decreases |t|, k
  {
    var s := Zeros(k) + t;
    if t == [] {
      if k > 0 {
        assert s[..|s| - 1] == Zeros(k - 1) + [];
        LeadingZerosIgnored(k - 1, []);
      }
    } else {
      assert s[..|s| - 1] == Zeros(k) + t[..|t| - 1];
      LeadingZerosIgnored(k, t[..|t| - 1]);
    }
  }

  /** Padding is undone by reading the digits back: Value(Padded(n)) == n. */
  lemma PaddedRoundTrip(n: nat)
    ensures |Padded(n)| >= MinDigits
    ensures AllDigits(Padded(n)) && Value(Padded(n)) == n
  {
    DecimalRoundTrip(n);
    var d := Decimal(n);
    if |d| < MinDigits {
      LeadingZerosIgnored(MinDigits - |d|, d);
    }
  }

  /**
   * Any id equal to Format(prefix, n) ignoring case reads back as n; in
   * particular Format(prefix, n) itself does.
   */
  lemma FormattedReadsBack(prefix: string, n: nat, id: string)
    requires EqualsIgnoreCase(id, Format(prefix, n))
    ensures NumberOf(prefix, id) == Some(n)
  {
    var f := Format(prefix, n);
    var p := Padded(n);
    PaddedRoundTrip(n);
    assert |ToUpper(id)| == |ToUpper(f)|;
    assert |id| == |prefix| + |p|;
    var digits := id[|prefix|..];
    forall k | 0 <= k < |digits|
      ensures digits[k] == p[k]
    {
      assert ToUpper(id)[|prefix| + k] == ToUpper(f)[|prefix| + k];
      assert f[|prefix| + k] == p[k];
      UpperCharOfDigit(p[k], p[k]);
      UpperCharOfDigit(id[|prefix| + k], p[k]);
    }
    assert digits == p;
    assert ToUpper(id[..|prefix|]) == ToUpper(prefix) by {
      forall k | 0 <= k < |prefix|
        ensures ToUpper(id[..|prefix|])[k] == ToUpper(prefix)[k]
      {
        assert ToUpper(id)[k] == ToUpper(f)[k];
      }
    }
  }

  /** Two different numbers never give ids that are equal ignoring case. */
  lemma FormatInjective(prefix: string, n: nat, m: nat)
    requires EqualsIgnoreCase(Format(prefix, n), Format(prefix, m))
    ensures n == m
  {
    FormattedReadsBack(prefix, n, Format(prefix, n));
    FormattedReadsBack(prefix, m, Format(prefix, n));
  }

  /** The stored ids of a list of records, in list order. */
  function IdsOf<T>(records: seq<T>, idOf: T -> string): (ids: seq<string>)
    ensures |ids| == |records|
    ensures forall i | 0 <= i < |records| :: ids[i] == idOf(records[i])
  {
    seq(|records|, i requires 0 <= i < |records| => idOf(records[i]))
  }

  /** No stored id equals id ignoring case: `findX(id) == null`. */
  predicate Unused(ids: seq<string>, id: string) {
    forall j | 0 <= j < |ids| :: !EqualsIgnoreCase(ids[j], id)
  }

  /** The position of the first stored id equal to id ignoring case. */
  function FirstIndex(ids: seq<string>, id: string): (r: Option<nat>)
    ensures r.Some? ==> r.value < |ids| && EqualsIgnoreCase(ids[r.value], id)
    ensures r.Some? ==> forall j | 0 <= j < r.value :: !EqualsIgnoreCase(ids[j], id)
    ensures r.None? <==> Unused(ids, id)
    decreases |ids|
  {
    if ids == [] then None
    else if EqualsIgnoreCase(ids[0], id) then Some(0)
    else match FirstIndex(ids[1..], id)
      case None => None
      case Some(k) => Some(k + 1)
  }

  /** The lookup loop of findDoctor, findAppointment and findHospital. */
  method FindFirst(ids: seq<string>, id: string) returns (r: Option<nat>)
    ensures r == FirstIndex(ids, id)
  {
    var i := 0;
    while i < |ids|
      invariant 0 <= i <= |ids|
      invariant forall j | 0 <= j < i :: !EqualsIgnoreCase(ids[j], id)
    {
      if EqualsIgnoreCase(id, ids[i]) {
        return Some(i);
      }
      i := i + 1;
    }
    return None;
  }

  /** The collection invariant: stored ids are pairwise distinct ignoring case. */
  ghost predicate DistinctIgnoringCase(ids: seq<string>) {
    forall i, j | 0 <= i < j < |ids| :: !EqualsIgnoreCase(ids[i], ids[j])
  }

  /** Appending an unused id keeps the ids distinct, and a lookup of it finds the new last record. */
  lemma AppendUnused(ids: seq<string>, id: string)
    requires Unused(ids, id)
    ensures DistinctIgnoringCase(ids) ==> DistinctIgnoringCase(ids + [id])
    ensures FirstIndex(ids + [id], id) == Some(|ids|)
  {
    var s := ids + [id];
    assert s[|ids|] == id;
    assert forall j | 0 <= j < |ids| :: s[j] == ids[j];
  }

  /** Removing one id keeps the others distinct. */
  lemma RemoveKeepsDistinct(ids: seq<string>, i: nat)
    requires i < |ids| && DistinctIgnoringCase(ids)
    ensures DistinctIgnoringCase(ids[..i] + ids[i + 1..])
  {
    var s := ids[..i] + ids[i + 1..];
    forall a, b | 0 <= a < b < |s|
      ensures !EqualsIgnoreCase(s[a], s[b])
    {
      var a' := if a < i then a else a + 1;
      var b' := if b < i then b else b + 1;
      assert s[a] == ids[a'] && s[b] == ids[b'];
    }
  }

  /** Whether Format(prefix, n) is taken. */
  predicate Taken(prefix: string, ids: seq<string>, n: nat) {
    !Unused(ids, Format(prefix, n))
  }

  /**
   * How many stored ids read back as a number of at least t: the probe's
   * termination measure.
   */
  function CountFrom(prefix: string, ids: seq<string>, t: nat): (c: nat)
    ensures c <= |ids|
    decreases |ids|
  {
    if ids == [] then 0
    else
      var here := match NumberOf(prefix, ids[0]) case Some(m) => m >= t case None => false;
      (if here then 1 else 0) + CountFrom(prefix, ids[1..], t)
  }

  /** Stepping the probe past a taken number strictly lowers the measure. */
  lemma {:induction false} CountStep(prefix: string, ids: seq<string>, t: nat)
    ensures CountFrom(prefix, ids, t + 1) <= CountFrom(prefix, ids, t)
    ensures Taken(prefix, ids, t) ==> CountFrom(prefix, ids, t + 1) < CountFrom(prefix, ids, t)
    decreases |ids|
  {
    if ids != [] {
      CountStep(prefix, ids[1..], t);
      if EqualsIgnoreCase(ids[0], Format(prefix, t)) {
        FormattedReadsBack(prefix, t, ids[0]);
      } else if Taken(prefix, ids, t) {
        var j :| 0 <= j < |ids| && EqualsIgnoreCase(ids[j], Format(prefix, t));
        assert ids[1..][j - 1] == ids[j];
      }
    }
  }

  /**
   * The probe from t on: the least number n >= t whose formatted id is
   * unused, found within CountFrom(prefix, ids, t) steps.
   */
  ghost function NextFrom(prefix: string, ids: seq<string>, t: nat): (n: nat)
    ensures t <= n <= t + CountFrom(prefix, ids, t)
    ensures !Taken(prefix, ids, n)
    ensures forall k | t <= k < n :: Taken(prefix, ids, k)
    decreases CountFrom(prefix, ids, t)
  {
    if !Taken(prefix, ids, t) then t
    else
      CountStep(prefix, ids, t);
      var n := NextFrom(prefix, ids, t + 1);
      TakenBelow(prefix, ids, t, n);
      n
  }

  /** Taken at t and at every number from t + 1 below n: taken at every number from t below n. */
  lemma TakenBelow(prefix: string, ids: seq<string>, t: nat, n: nat)
    requires Taken(prefix, ids, t)
    requires forall k | t + 1 <= k < n :: Taken(prefix, ids, k)
    ensures forall k | t <= k < n :: Taken(prefix, ids, k)
  {
  }

  /**
   * The number getNextXId settles on: the least n >= size + 1 whose id is
   * unused. At most size ids are stored, so n <= 2 * size + 1.
   */
  ghost function NextNumber(prefix: string, ids: seq<string>): (n: nat)
    ensures |ids| + 1 <= n <= 2 * |ids| + 1
    ensures !Taken(prefix, ids, n)
    ensures forall k | |ids| + 1 <= k < n :: Taken(prefix, ids, k)
  {
    NextFrom(prefix, ids, |ids| + 1)
  }

  /**
   * One probe step, as the loop sees it: when the lookup of the test id
   * finds nothing the probe ends there, otherwise it moves to the next
   * number and the measure drops.
   */
  lemma ProbeStep(prefix: string, ids: seq<string>, t: nat, found: Option<nat>)
    requires found == FirstIndex(ids, Format(prefix, t))
    ensures found.None? ==> NextFrom(prefix, ids, t) == t
    ensures found.Some? ==> NextFrom(prefix, ids, t) == NextFrom(prefix, ids, t + 1)
    ensures found.Some? ==> CountFrom(prefix, ids, t + 1) < CountFrom(prefix, ids, t)
  {
    CountStep(prefix, ids, t);
  }

  /** getNextDoctorId, getNextAppointmentId, getNextHospitalId: the probe loop. */
  method NextId(prefix: string, ids: seq<string>) returns (id: string)
    ensures id == Format(prefix, NextNumber(prefix, ids))
  {
    var test: nat := |ids| + 1;
    while true
      invariant NextFrom(prefix, ids, test) == NextNumber(prefix, ids)
      decreases CountFrom(prefix, ids, test)
    {
      var testId := Format(prefix, test);
      var found := FindFirst(ids, testId);
      ProbeStep(prefix, ids, test, found);
      if found.None? {
        return testId;
      }
      test := test + 1;
    }
  }

  /** On an empty collection the first id is prefix + "001". */
  lemma FirstIdOfEmpty(prefix: string)
    ensures NextNumber(prefix, []) == 1
    ensures Format(prefix, 1) == prefix + "001"
  {
    assert Decimal(1) == "1";
    assert Zeros(2) == "00";
  }
}
