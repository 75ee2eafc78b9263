/** The 'progress' script property and the percentage the scan writes into it.
    The property store is one optional cell: None until something is written
    under the key. */
module Progress {
  import opened Results
  import opened Decimal

  /** What a write left under the key: a literal text ('0', '100'), or the
      decimal text of a number (`newProgress.toString()`), which is kept as
      the number and rendered when the property is read. */
  datatype Property = Literal(text: string) | Rendered(number: int)

  type Store = Option<Property>

  function Min(a: int, b: int): int {
    if a <= b then a else b
  }

  /** The text the property holds. */
  function PropertyText(p: Property): string {
    match p
    case Literal(s) => s
    case Rendered(n) => IntToString(n)
  }

  /** Writing a value under the 'progress' key. */
  function SetProgress(store: Store, value: Property): Store {
    Some(value)
  }

  /** A non-empty value written under the key is what a later read returns;
      a rendered number always reads back as its decimal text. */
  lemma {:induction false} SetThenGet(store: Store, value: Property)
    requires value.Rendered? || value.text != ""
    ensures GetProgress(SetProgress(store, value)) == PropertyText(value)
  {
    if value.Rendered? {
      NatToStringCanonical(if value.number < 0 then -value.number else value.number);
    }
  }

  /** `resetProgress`: whatever was stored before, a read afterwards gives "0". */
  function ResetProgress(store: Store): (r: Store)
    ensures GetProgress(r) == "0"
  {
    SetProgress(store, Literal("0"))
  }

  /** `getProgress`: the stored text, or "0" when nothing (or the empty text,
      which the source's `||` treats as missing) is stored. */
  function GetProgress(store: Store): (r: string)
    ensures r != ""
    ensures r == "0" || (store.Some? && r == PropertyText(store.value))
  {
    match store
    case Some(p) => if PropertyText(p) != "" then PropertyText(p) else "0"
    case None => "0"
  }

  /** The number a poller reads from the store. */
  function StoredPercent(store: Store): Option<int> {
    ParseInt(GetProgress(store))
  }

  /** A percentage written as `newProgress.toString()` reads back as the
      same number. */
  lemma {:induction false} ReadRendered(store: Store, v: int)
    ensures StoredPercent(SetProgress(store, Rendered(v))) == Some(v)
  {
    SetThenGet(store, Rendered(v));
    IntRoundTrip(v);
  }

  /** The literal '100' written on every finishing path reads back as 100. */
  lemma {:induction false} ReadFull(store: Store)
    ensures StoredPercent(SetProgress(store, Literal("100"))) == Some(100)
  {
    HundredText();
  }

  /** `Math.round(a / b)` for b > 0, computed exactly: the integer nearest to
      a / b, halves rounded up. */
  function RoundHalfUp(a: int, b: int): int
    requires b > 0
  {
    (2 * a + b) / (2 * b)
  }

  /** `RoundHalfUp(a, b)` is the integer r with r - 1/2 <= a / b < r + 1/2. */
  lemma {:induction false} RoundHalfUpNearest(a: int, b: int)
    requires b > 0
    ensures var r := RoundHalfUp(a, b); 2 * b * r <= 2 * a + b < 2 * b * (r + 1)
  {
  }

  /** The percentage written after a batch: 0 when no total is known,
      otherwise the rounded share of `scanned` in `total`, capped at 100.
      For a non-negative count it is a percentage. */
  function NewProgress(scanned: int, total: nat): (p: int)
    ensures 0 <= scanned ==> 0 <= p <= 100
  {
    if total == 0 then 0 else Min(RoundHalfUp(100 * scanned, total), 100)
  }

  /** The percentage never exceeds 100, is 0 without a total, and is not
      negative for a non-negative count. */
  lemma {:induction false} ProgressRange(scanned: int, total: nat)
    ensures NewProgress(scanned, total) <= 100
    ensures total == 0 ==> NewProgress(scanned, total) == 0
    ensures 0 <= scanned ==> 0 <= NewProgress(scanned, total)
  {
    if total > 0 {
      RoundHalfUpNearest(100 * scanned, total);
    }
  }

  lemma {:induction false} MulLeftLess(c: int, x: int, y: int)
    requires c > 0
    requires c * x < c * y
    ensures x < y
  {
  }

  lemma {:induction false} RoundHalfUpMonotone(a1: int, a2: int, b: int)
    requires b > 0 && a1 <= a2
    ensures RoundHalfUp(a1, b) <= RoundHalfUp(a2, b)
  {
    var r1, r2 := RoundHalfUp(a1, b), RoundHalfUp(a2, b);
    RoundHalfUpNearest(a1, b);
    RoundHalfUpNearest(a2, b);
    assert 2 * b * r1 < 2 * b * (r2 + 1);
    MulLeftLess(2 * b, r1, r2 + 1);
  }

  /** A step that has scanned more files never reports a smaller percentage. */
  lemma {:induction false} ProgressMonotone(s1: int, s2: int, total: nat)
    requires s1 <= s2
    ensures NewProgress(s1, total) <= NewProgress(s2, total)
  {
    if total > 0 {
      RoundHalfUpMonotone(100 * s1, 100 * s2, total);
    }
  }

  /** Fewer files scanned than the total (and a total below 200, so that
      rounding cannot reach 100) gives a percentage below 100. */
  lemma {:induction false} ProgressBelowFull(scanned: int, total: nat)
    requires scanned < total < 200
    ensures NewProgress(scanned, total) < 100
  {
    if total > 0 {
      var r := RoundHalfUp(100 * scanned, total);
      RoundHalfUpNearest(100 * scanned, total);
      assert 2 * total * r < 2 * total * 100;
      MulLeftLess(2 * total, r, 100);
    }
  }

  /** Having scanned exactly the total gives 100. */
  lemma {:induction false} ProgressAtTotal(total: nat)
    requires total > 0
    ensures NewProgress(total, total) == 100
  {
    var r := RoundHalfUp(100 * total, total);
    RoundHalfUpNearest(100 * total, total);
    assert 2 * total * r <= 201 * total < 2 * total * 101;
    MulLeftLess(2 * total, r, 101);
    assert 2 * total * 100 < 201 * total < 2 * total * (r + 1);
    MulLeftLess(2 * total, 100, r + 1);
  }
}
