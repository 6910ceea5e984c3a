/**
 * The per-scaler index prefix on metric names. A scaled object with several
 * scalers reports each scaler's metric as "s<index>-<name>";
 * RemoveIndexFromMetricName maps a reported name back to the base name,
 * checking that the prefix belongs to the given scaler.
 */
module MetricNames {
  import opened Wrappers
  import Decimal

  /** Why a metric name was refused. */
  datatype NameError =
    | MissingIndexPrefix                   // there is no '-' at all
    | IncorrectIndexPrefix(prefix: string) // the part before the first '-' is not "s<index>"

  /** The position of the first `c` in `s`, if any. */
  function FirstIndexOf(s: string, c: char): (r: Option<nat>)
    ensures r.None? <==> c !in s
    ensures r.Some? ==> r.value < |s| && s[r.value] == c && c !in s[..r.value]
  {
    if s == [] then None
    else if s[0] == c then Some(0)
    else match FirstIndexOf(s[1..], c)
      case None => None
      case Some(k) =>
        assert s[..k + 1] == [s[0]] + s[1..][..k];
        Some(k + 1)
  }

  /** `strings.SplitN(s, sep, 2)`: the text before the first separator and the text after it. */
  function SplitFirst(s: string, sep: char): (r: Option<(string, string)>)
    ensures r.None? <==> sep !in s
    ensures r.Some? ==> s == r.value.0 + [sep] + r.value.1 && sep !in r.value.0
  {
    match FirstIndexOf(s, sep)
    case None => None
    case Some(k) =>
      assert s == s[..k] + [sep] + s[k + 1..];
      Some((s[..k], s[k + 1..]))
  }

  /** The index an "s<digits>" prefix carries, or None when the prefix has another shape. */
  function PrefixIndex(prefix: string): Option<nat> {
    if |prefix| >= 1 && prefix[0] == 's' then Decimal.Parse(prefix[1..]) else None
  }

  /**
   * Strips the "s<index>-" prefix from a metric name. Fails when the name has
   * no '-', or when the part before the first '-' is not 's' followed by the
   * digits of `scalerIndex`. The rest of the name is returned as it is, '-'
   * and all.
   */
  function RemoveIndexFromMetricName(scalerIndex: int, metricName: string): (r: Result<string, NameError>)
    ensures '-' !in metricName <==> r == Failure(MissingIndexPrefix)
    ensures r.Success? ==> scalerIndex >= 0
    ensures r.Success? ==> |r.value| < |metricName| && metricName[|metricName| - |r.value|..] == r.value
    ensures (metricName == [] || metricName[0] != 's') ==> r.Failure?
  {
    match SplitFirst(metricName, '-')
    case None => Failure(MissingIndexPrefix)
    case Some((prefix, rest)) =>
      match PrefixIndex(prefix)
      case Some(index) =>
        if index == scalerIndex then
          assert metricName[|metricName| - |rest|..] == rest;
          Success(rest)
        else Failure(IncorrectIndexPrefix(prefix))
      case None => Failure(IncorrectIndexPrefix(prefix))
  }


  /** The first separator of `a + [sep] + b` is the one after `a` when `a` has none. */
  lemma {:induction false} FirstIndexAfter(a: string, sep: char, b: string)
    requires sep !in a
    ensures FirstIndexOf(a + [sep] + b, sep) == Some(|a|)
  {
    var s := a + [sep] + b;
    if a != [] {
      assert s[0] == a[0] != sep;
      assert s[1..] == a[1..] + [sep] + b;
      FirstIndexAfter(a[1..], sep, b);
    }
  }

  /** Splitting at the first separator takes apart exactly the separator-free head and the rest. */
  lemma SplitAfter(a: string, sep: char, b: string)
    requires sep !in a
    ensures SplitFirst(a + [sep] + b, sep) == Some((a, b))
  {
    var s := a + [sep] + b;
    FirstIndexAfter(a, sep, b);
    assert s[..|a|] == a && s[|a| + 1..] == b;
  }

  /**
   * The name the scaler with index `i` reports for base name `name`: split at
   * its first '-', it falls apart into "s<index>" and the base name.
   */
  function IndexedName(i: nat, name: string): (r: string)
    ensures SplitFirst(r, '-') == Some(("s" + Decimal.Format(i), name))
  {
    var prefix := "s" + Decimal.Format(i);
    assert '-' !in prefix;
    SplitAfter(prefix, '-', name);
    prefix + ['-'] + name
  }

  /** Removing the index from a name built with that index gives back the base name, whatever it contains. */
  lemma RoundTrip(i: nat, name: string)
    ensures RemoveIndexFromMetricName(i, IndexedName(i, name)) == Success(name)
  {
    Decimal.ParseFormat(i);
    assert ("s" + Decimal.Format(i))[1..] == Decimal.Format(i);
  }

  /** A name built with another index is refused. */
  lemma WrongIndexFails(i: int, j: nat, name: string)
    requires i != j
    ensures RemoveIndexFromMetricName(i, IndexedName(j, name)).Failure?
  {
    Decimal.ParseFormat(j);
    assert ("s" + Decimal.Format(j))[1..] == Decimal.Format(j);
  }

  /**
   * Removal succeeds exactly on names of the form "s" + digits + "-" + base
   * whose digits read as the index; the result is then that base.
   */
  lemma RemoveIndexCharacterization(i: int, metricName: string, base: string)
    ensures RemoveIndexFromMetricName(i, metricName) == Success(base)
      <==> exists digits :: Decimal.Parse(digits) == Some(i) && metricName == "s" + digits + "-" + base
  {
    if RemoveIndexFromMetricName(i, metricName) == Success(base) {
      var (prefix, rest) := SplitFirst(metricName, '-').value;
      var digits := prefix[1..];
      assert prefix == "s" + digits;
      assert metricName == "s" + digits + "-" + base;
    }
    if exists digits :: Decimal.Parse(digits) == Some(i) && metricName == "s" + digits + "-" + base {
      var digits :| Decimal.Parse(digits) == Some(i) && metricName == "s" + digits + "-" + base;
      var prefix := "s" + digits;
      assert '-' !in prefix by {
        assert forall k | 0 <= k < |digits| :: Decimal.IsDigit(digits[k]);
      }
      assert metricName == prefix + ['-'] + base;
      SplitAfter(prefix, '-', base);
      assert prefix[1..] == digits;
    }
  }

  /** Table row: index 0 against "s0-metricName". */
  lemma ProperInputCase()
    ensures RemoveIndexFromMetricName(0, "s0-metricName") == Success("metricName")
  {
    RoundTrip(0, "metricName");
    assert IndexedName(0, "metricName") == "s0-metricName";
  }

  /** Table row: a multi-digit index, 123 against "s123-metricName". */
  lemma MultiDigitIndexCase()
    ensures RemoveIndexFromMetricName(123, "s123-metricName") == Success("metricName")
  {
    assert IndexedName(123, "metricName") == "s123-metricName" by {
      assert Decimal.Format(1) == "1";
      assert Decimal.Format(12) == "12";
      assert Decimal.Format(123) == "123";
    }
    RoundTrip(123, "metricName");
  }

  /** Table row: index 1 against "s0-metricName" is refused. */
  lemma WrongIndexCase()
    ensures RemoveIndexFromMetricName(1, "s0-metricName") == Failure(IncorrectIndexPrefix("s0"))
  {
    assert "s0-metricName" == "s0" + ['-'] + "metricName";
    SplitAfter("s0", '-', "metricName");
    Decimal.ParseFormat(0);
    assert "s0"[1..] == Decimal.Format(0);
  }

  /** Table row: "0-metricName", whose prefix lacks the 's', is refused as an incorrect prefix. */
  lemma MissingLetterCase()
    ensures RemoveIndexFromMetricName(0, "0-metricName") == Failure(IncorrectIndexPrefix("0"))
  {
    assert "0-metricName" == "0" + ['-'] + "metricName";
    SplitAfter("0", '-', "metricName");
  }

  /** Table row: "metricName", which has no prefix at all, is refused. */
  lemma NoPrefixCase()
    ensures RemoveIndexFromMetricName(0, "metricName") == Failure(MissingIndexPrefix)
  {
    assert '-' !in "metricName";
  }

  /** Beyond the table: a prefix index with leading zeros is read by its value. */
  lemma LeadingZerosAccepted()
    ensures RemoveIndexFromMetricName(0, "s00-x") == Success("x")
  {
    assert "s00-x" == "s00" + ['-'] + "x";
    SplitAfter("s00", '-', "x");
    assert "s00"[1..] == "00";
    assert Decimal.AllDigits("00");
    assert Decimal.DigitsValue("00") == 0 by {
      assert "00"[..1] == "0";
      assert "0"[..0] == [];
    }
  }
}
