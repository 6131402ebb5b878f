/** The text cells of hledger's CSV output and their conversion to numbers
    (`string_to_f32` in src/main.rs): first the cleaning that strips the
    currency suffix and the digit-group separators, then a decimal parse. */
module Cells {
  import opened Wrappers

  /** One CSV record: its cells in column order. */
  type Record = seq<string>

  /** The currency suffix hledger appends to amounts. */
  const CurrencySuffix: string := " USD"

  /** The digit-group separator inside amounts. */
  const GroupSeparator: string := ","

  /** `pat` occurs in `s` starting at position `i`. */
  predicate OccursAt(s: string, pat: string, i: nat)
  {
    i + |pat| <= |s| && s[i..i + |pat|] == pat
  }

  predicate Contains(s: string, pat: string)
  {
    exists i: nat | i <= |s| :: OccursAt(s, pat, i)
  }

  /** `s.replace(pat, "")`: scanning left to right, every non-overlapping
      occurrence of `pat` is deleted. */
  function RemoveAll(s: string, pat: string): (r: string)
    requires |pat| > 0
    ensures |r| <= |s|
    decreases |s|
  {
    if |s| == 0 then
      []
    else if OccursAt(s, pat, 0) then
      RemoveAll(s[|pat|..], pat)
    else
      [s[0]] + RemoveAll(s[1..], pat)
  }

  /** Removal only deletes characters: it never introduces one, nor adds
      a copy of one. */
  lemma {:induction false} RemoveAllDeletesOnly(s: string, pat: string)
    requires |pat| > 0
    ensures multiset(RemoveAll(s, pat)) <= multiset(s)
    decreases |s|
  {
    if |s| > 0 {
      if OccursAt(s, pat, 0) {
        RemoveAllDeletesOnly(s[|pat|..], pat);
        assert s == s[..|pat|] + s[|pat|..];
      } else {
        RemoveAllDeletesOnly(s[1..], pat);
        assert s == [s[0]] + s[1..];
      }
    }
  }

  /** The cleaning step of `string_to_f32`: drop the currency suffix, then
      the group separators. */
  function Clean(s: string): (r: string)
    ensures ',' !in r
    ensures |r| <= |s|
  {
    RemoveSingleLeavesNone(RemoveAll(s, CurrencySuffix), ',');
    RemoveAll(RemoveAll(s, CurrencySuffix), GroupSeparator)
  }

  /** Cleaning only deletes characters: every character of the cleaned
      text, with its multiplicity, comes from the cell. */
  lemma CleanDeletesOnly(s: string)
    ensures multiset(Clean(s)) <= multiset(s)
  {
    RemoveAllDeletesOnly(s, CurrencySuffix);
    RemoveAllDeletesOnly(RemoveAll(s, CurrencySuffix), GroupSeparator);
  }

  /** Removing a one-character pattern leaves no copy of that character. */
  lemma {:induction false} RemoveSingleLeavesNone(s: string, c: char)
    ensures c !in RemoveAll(s, [c])
    decreases |s|
  {
    if |s| > 0 {
      RemoveSingleLeavesNone(s[1..], c);
      if !OccursAt(s, [c], 0) {
        assert s[0] != c by { assert s[0..1] == [s[0]]; }
      }
    }
  }

  /** A string without `pat` is left unchanged by removing `pat`. */
  lemma {:induction false} RemoveAllAbsent(s: string, pat: string)
    requires |pat| > 0
    requires !Contains(s, pat)
    ensures RemoveAll(s, pat) == s
    decreases |s|
  {
    if |s| > 0 {
      assert !OccursAt(s, pat, 0);
      forall i: nat | i <= |s| - 1
        ensures !OccursAt(s[1..], pat, i)
      {
        if i + |pat| <= |s| - 1 {
          var a, b := s[1..][i..i + |pat|], s[i + 1..i + 1 + |pat|];
          forall k | 0 <= k < |pat|
            ensures a[k] == b[k]
          {
          }
          assert !OccursAt(s, pat, i + 1);
        }
      }
      RemoveAllAbsent(s[1..], pat);
      assert s == [s[0]] + s[1..];
    }
  }

  /** For a one-character pattern, containment is membership. */
  lemma ContainsSingle(s: string, c: char)
    ensures Contains(s, [c]) <==> c in s
  {
    if c in s {
      var i :| 0 <= i < |s| && s[i] == c;
      assert s[i..i + 1] == [c];
      assert OccursAt(s, [c], i);
    }
    if Contains(s, [c]) {
      var i: nat :| i <= |s| && OccursAt(s, [c], i);
      assert s[i] == s[i..i + 1][0] == c;
    }
  }

  /** A string holding neither the currency suffix nor a separator is
      already clean. */
  lemma CleanLeavesPlainUnchanged(s: string)
    requires !Contains(s, CurrencySuffix)
    requires ',' !in s
    ensures Clean(s) == s
  {
    RemoveAllAbsent(s, CurrencySuffix);
    ContainsSingle(s, ',');
    RemoveAllAbsent(s, GroupSeparator);
  }

  /** Cleaning twice is cleaning once whenever the first pass leaves no
      currency suffix behind. */
  lemma CleanIdempotentWithoutSuffix(s: string)
    requires !Contains(Clean(s), CurrencySuffix)
    ensures Clean(Clean(s)) == Clean(s)
  {
    CleanLeavesPlainUnchanged(Clean(s));
  }

  /** Removing separators from a string without any is the identity. */
  lemma RemoveCommaAbsent(s: string)
    requires ',' !in s
    ensures RemoveAll(s, GroupSeparator) == s
  {
    ContainsSingle(s, ',');
    RemoveAllAbsent(s, GroupSeparator);
  }

  predicate IsDigit(c: char)
  {
    '0' <= c <= '9'
  }

  predicate AllDigits(s: string)
  {
    forall i :: 0 <= i < |s| ==> IsDigit(s[i])
  }

  /** The natural number a string of decimal digits denotes. */
  function DigitsValue(ds: string): (n: nat)
    requires AllDigits(ds)
  {
    if |ds| == 0 then 0
    else 10 * DigitsValue(ds[..|ds| - 1]) + (ds[|ds| - 1] as int - '0' as int)
  }

  /** `n` shifted `k` decimal places to the right, `n / 10^k`. */
  function Shifted(n: nat, k: nat): (v: real)
    ensures v >= 0.0
  {
    if k == 0 then n as real else Shifted(n, k - 1) / 10.0
  }

  /** Position of the first `c` in `s`, or `|s|` when there is none. */
  function IndexOf(s: string, c: char): (i: nat)
    ensures i <= |s|
    ensures i < |s| ==> s[i] == c
    ensures forall j :: 0 <= j < i ==> s[j] != c
  {
    if |s| == 0 then 0
    else if s[0] == c then 0
    else 1 + IndexOf(s[1..], c)
  }

  /** A character that does not occur is found at the end. */
  lemma {:induction false} IndexOfAbsent(s: string, c: char)
    requires c !in s
    ensures IndexOf(s, c) == |s|
    decreases |s|
  {
    if |s| > 0 {
      assert s[0] != c;
      assert c !in s[1..] by {
        forall i | 0 <= i < |s| - 1 ensures s[1..][i] != c {
          assert s[1..][i] == s[i + 1];
        }
      }
      IndexOfAbsent(s[1..], c);
    }
  }

  /** An unsigned decimal: digits, optionally a point and more digits, at
      least one digit in all. */
  function ParseUnsigned(s: string): (r: Option<real>)
    ensures r.Some? ==> r.value >= 0.0
  {
    var dot := IndexOf(s, '.');
    if dot < |s| then DecimalOf(s[..dot], s[dot + 1..]) else DecimalOf(s, [])
  }

  /** The number written with `whole` before the point and `fraction` after
      it, when both are digit strings and not both empty. */
  function DecimalOf(whole: string, fraction: string): (r: Option<real>)
    ensures r.Some? ==> r.value >= 0.0
  {
    if AllDigits(whole) && AllDigits(fraction) && |whole| + |fraction| > 0 then
      Some(DigitsValue(whole) as real + Shifted(DigitsValue(fraction), |fraction|))
    else
      None
  }

  /** The decimal subset of `str::parse::<f32>`: an optional sign, then an
      unsigned decimal. */
  function ParseDecimal(s: string): (r: Option<real>)
    ensures r.Some? ==> |s| > 0
    ensures r.Some? && r.value < 0.0 ==> s[0] == '-'
  {
    if |s| > 0 && (s[0] == '-' || s[0] == '+') then
      match ParseUnsigned(s[1..])
      case None => None
      case Some(v) => Some(if s[0] == '-' then -v else v)
    else
      ParseUnsigned(s)
  }

  /** `string_to_f32`: the number a CSV cell holds, or `None` when the
      cleaned cell is not a number (the source's parse error). */
  function CellValue(cell: string): (r: Option<real>)
    ensures r.Some? ==> |cell| > 0
    ensures r.Some? && r.value < 0.0 ==> '-' in cell
  {
    var cleaned := Clean(cell);
    assert ParseDecimal(cleaned).Some? && ParseDecimal(cleaned).value < 0.0 ==> '-' in cell by {
      if ParseDecimal(cleaned).Some? && ParseDecimal(cleaned).value < 0.0 {
        assert cleaned[0] == '-';
        CleanDeletesOnly(cell);
        assert multiset(cleaned)['-'] > 0;
      }
    }
    ParseDecimal(cleaned)
  }

  /** A cell with the number it holds, if any. */
  datatype Reading = Reading(text: string, value: Option<real>)

  /** Every cell of a record with its number. */
  function Read(row: Record): (rs: seq<Reading>)
  {
    seq(|row|, i requires 0 <= i < |row| => Reading(row[i], CellValue(row[i])))
  }

  /** The decimal rendering of a natural number, most significant digit
      first. */
  function NatDigits(n: nat): (ds: string)
    ensures |ds| > 0
    ensures AllDigits(ds)
  {
    if n < 10 then [('0' as int + n) as char]
    else NatDigits(n / 10) + [('0' as int + n % 10) as char]
  }

  /** Rendering then reading digits is the identity on naturals. */
  lemma {:induction false} DigitsValueOfNatDigits(n: nat)
    ensures DigitsValue(NatDigits(n)) == n
    decreases n
  {
    if n >= 10 {
      var ds := NatDigits(n);
      assert ds[..|ds| - 1] == NatDigits(n / 10);
      DigitsValueOfNatDigits(n / 10);
    }
  }

  /** A string of digits holds no point, separator or currency suffix. */
  lemma DigitsArePlain(ds: string)
    requires AllDigits(ds)
    ensures '.' !in ds && ',' !in ds && ' ' !in ds
    ensures !Contains(ds, CurrencySuffix)
  {
    forall i: nat | i <= |ds|
      ensures !OccursAt(ds, CurrencySuffix, i)
    {
      if i + 4 <= |ds| {
        assert ds[i..i + 4][0] == ds[i];
        assert IsDigit(ds[i]);
      }
    }
  }

  /** A string of digits is a whole unsigned decimal. */
  lemma ParseUnsignedDigits(ds: string)
    requires AllDigits(ds) && |ds| > 0
    ensures ParseUnsigned(ds) == Some(DigitsValue(ds) as real)
  {
    var dot := IndexOf(ds, '.');
    assert dot == |ds| by {
      assert '.' !in ds by {
        forall i | 0 <= i < |ds| ensures ds[i] != '.' {
          assert IsDigit(ds[i]);
        }
      }
      IndexOfAbsent(ds, '.');
    }
    assert ParseUnsigned(ds) == DecimalOf(ds, []);
    var none: string := [];
    assert AllDigits(none) && DigitsValue(none) == 0;
  }

  /** A string of digits parses as the number it denotes. */
  lemma ParseDigits(ds: string)
    requires AllDigits(ds) && |ds| > 0
    ensures ParseDecimal(ds) == Some(DigitsValue(ds) as real)
  {
    ParseUnsignedDigits(ds);
    assert IsDigit(ds[0]);
  }

  /** A rendered whole amount, with or without the currency suffix, reads
      back as the same number. */
  lemma CellValueOfWholeAmount(n: nat)
    ensures CellValue(NatDigits(n)) == Some(n as real)
    ensures CellValue(NatDigits(n) + CurrencySuffix) == Some(n as real)
  {
    var ds := NatDigits(n);
    DigitsValueOfNatDigits(n);
    DigitsArePlain(ds);
    CleanLeavesPlainUnchanged(ds);
    ParseDigits(ds);
    RemoveTrailingSuffix(ds);
    ContainsSingle(ds, ',');
    RemoveAllAbsent(ds, GroupSeparator);
  }

  /** Removing the currency suffix from a space-free string followed by
      the suffix leaves that string. */
  lemma {:induction false} RemoveTrailingSuffix(ds: string)
    requires ' ' !in ds
    ensures RemoveAll(ds + CurrencySuffix, CurrencySuffix) == ds
    decreases |ds|
  {
    var s := ds + CurrencySuffix;
    if |ds| == 0 {
      assert OccursAt(s, CurrencySuffix, 0);
      assert s[4..] == [];
    } else {
      assert !OccursAt(s, CurrencySuffix, 0) by { assert s[0] == ds[0] != ' '; }
      assert s[1..] == ds[1..] + CurrencySuffix;
      RemoveTrailingSuffix(ds[1..]);
      assert ds == [ds[0]] + ds[1..];
    }
  }

  /** Removing a one-character pattern distributes over concatenation. */
  lemma {:induction false} RemoveSingleAppend(a: string, b: string, c: char)
    ensures RemoveAll(a + b, [c]) == RemoveAll(a, [c]) + RemoveAll(b, [c])
    decreases |a|
  {
    if |a| > 0 {
      assert (a + b)[1..] == a[1..] + b;
      assert OccursAt(a + b, [c], 0) <==> OccursAt(a, [c], 0) by {
        assert (a + b)[0..1] == [a[0]] == a[0..1];
      }
      RemoveSingleAppend(a[1..], b, c);
      if OccursAt(a, [c], 0) {
        calc {
          RemoveAll(a + b, [c]);
          RemoveAll((a + b)[1..], [c]);
          RemoveAll(a[1..], [c]) + RemoveAll(b, [c]);
          RemoveAll(a, [c]) + RemoveAll(b, [c]);
        }
      } else {
        calc {
          RemoveAll(a + b, [c]);
          [a[0]] + RemoveAll((a + b)[1..], [c]);
          [a[0]] + RemoveAll(a[1..], [c]) + RemoveAll(b, [c]);
          RemoveAll(a, [c]) + RemoveAll(b, [c]);
        }
      }
    } else {
      assert a + b == b;
    }
  }

  /** A space-free amount with one group separator and the currency
      suffix cleans to its two digit groups run together. */
  lemma CleanGrouped(a: string, b: string)
    requires ',' !in a && ',' !in b
    requires ' ' !in a && ' ' !in b
    ensures Clean(a + GroupSeparator + b + CurrencySuffix) == a + b
  {
    var grouped := a + GroupSeparator + b;
    assert ' ' !in grouped by {
      forall i | 0 <= i < |grouped| ensures grouped[i] != ' ' {
        if i < |a| { assert grouped[i] == a[i]; }
        else if i > |a| { assert grouped[i] == b[i - |a| - 1]; }
      }
    }
    RemoveTrailingSuffix(grouped);
    RemoveSingleAppend(a + GroupSeparator, b, ',');
    RemoveSingleAppend(a, GroupSeparator, ',');
    RemoveCommaAbsent(a);
    RemoveCommaAbsent(b);
    assert OccursAt(GroupSeparator, GroupSeparator, 0);
    assert RemoveAll(GroupSeparator, GroupSeparator) == [];
  }

  /** The worked example of the cleaning step. */
  lemma CleanExample()
    ensures Clean("1,234.56 USD") == "1234.56"
  {
    CleanGrouped("1", "234.56");
    assert "1" + GroupSeparator + "234.56" + CurrencySuffix == "1,234.56 USD";
  }

  /** The cleaned example parses as its decimal value. */
  lemma ParseExample()
    ensures ParseDecimal("1234.56") == Some(1234.56)
  {
    var plain := "1234.56";
    assert IndexOf(plain, '.') == 4;
    assert plain[..4] == "1234" && plain[5..] == "56";
    assert DigitsValue("1234") == 1234 by {
      assert "1234"[..3] == "123" && "123"[..2] == "12" && "12"[..1] == "1" && "1"[..0] == "";
    }
    assert DigitsValue("56") == 56 by {
      assert "56"[..1] == "5" && "5"[..0] == "";
    }
    assert Shifted(56, 2) == 0.56;
    assert ParseUnsigned(plain) == DecimalOf("1234", "56");
  }

  /** A bare zero with the currency suffix reads as zero. */
  lemma ZeroExample()
    ensures CellValue("0 USD") == Some(0.0)
  {
    CellValueOfWholeAmount(0);
    assert NatDigits(0) + CurrencySuffix == "0 USD";
  }

  /** A grouped amount with the currency suffix reads as its plain value. */
  lemma GroupedExample()
    ensures CellValue("1,234.56 USD") == Some(1234.56)
  {
    CleanExample();
    ParseExample();
  }
}
