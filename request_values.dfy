/**
 * The data a parameter source walks through: the posted-body map, the query map
 * and the path residue, as PHP values, and `isset($src[$k])` followed by
 * `$src = $src[$k]`, the step of that walk.
 */
module RequestValues {
  import opened Wrappers
  import opened PhpStrings

  /**
   * A PHP value as it occurs in request data. `Dict` is a PHP array keyed by the
   * string form of its keys (PHP stores "5" as the integer key 5, so looking up the
   * raw string and comparing string forms agree). `List` is a reindexed PHP list,
   * such as the path residue left by `array_shift`.
   */
  datatype Value = Null | Str(s: string) | Dict(entries: map<string, Value>) | List(items: seq<Value>)

  /** The path residue as the PHP list `$pathInfo`, keys 0, 1, 2, … */
  function PathValue(residue: seq<string>): (r: Value)
    ensures r.List? && |r.items| == |residue|
    ensures forall i :: 0 <= i < |residue| ==> r.items[i] == Str(residue[i])
  {
    List(seq(|residue|, i requires 0 <= i < |residue| => Str(residue[i])))
  }

  /**
   * The offset a string key selects in a string of length `len` (PHP string
   * offsets: digits, leading zeros allowed, or a minus sign counting from the end).
   */
  function StringOffset(key: string, len: nat): (r: Option<nat>)
    ensures r.Some? ==> r.value < len
  {
    if IsDigits(key) then
      var n := DecimalValue(key);
      if n < len then Some(n) else None
    else if |key| >= 2 && key[0] == '-' && IsDigits(key[1..]) then
      var n := DecimalValue(key[1..]);
      if n == 0 then (if len > 0 then Some(0) else None)
      else if n <= len then Some(len - n) else None
    else None
  }

  /**
   * `isset($src[$key]) ? $src[$key] : absent`. A key that is missing, or whose
   * value is null, is absent; indexing null or an offset outside a string is absent.
   */
  function Lookup(v: Value, key: string): (r: Option<Value>)
    ensures r.Some? ==> r.value != Null
    ensures v.Null? ==> r.None?
    ensures v.Dict? ==> (r.Some? <==> key in v.entries && v.entries[key] != Null)
    ensures v.Dict? && r.Some? ==> r.value == v.entries[key]
    ensures v.List? && r.Some? ==> IsIndexKey(key) && r.value in v.items
    ensures v.Str? && r.Some? ==> r.value.Str? && |r.value.s| == 1 && r.value.s[0] in v.s
  {
    match v
    case Null => None
    case Dict(m) => if key in m && m[key] != Null then Some(m[key]) else None
    case List(xs) =>
      if IsIndexKey(key) && DecimalValue(key) < |xs| && xs[DecimalValue(key)] != Null
      then Some(xs[DecimalValue(key)]) else None
    case Str(s) =>
      match StringOffset(key, |s|)
      case Some(i) => Some(Str([s[i]]))
      case None => None
  }

  /** Offset `i` of a string is found under the key `Decimal(i)` exactly when it lies inside the string. */
  lemma StringLookupDecimal(s: string, i: nat)
    ensures Lookup(Str(s), Decimal(i)) == if i < |s| then Some(Str([s[i]])) else None
  {
  }

  /**
   * Only numeric keys find something in a string: a digit key selects the
   * offset it denotes, and any other key that finds something is a minus sign
   * followed by digits.
   */
  lemma StringLookupOnlyNumeric(s: string, key: string)
    requires Lookup(Str(s), key).Some?
    ensures IsDigits(key) || (|key| >= 2 && key[0] == '-' && IsDigits(key[1..]))
    ensures IsDigits(key) ==> DecimalValue(key) < |s| && Lookup(Str(s), key) == Some(Str([s[DecimalValue(key)]]))
  {
  }

  /** A leading zero does not change the offset a digit key selects. */
  lemma StringLookupLeadingZero(s: string, k: string)
    requires IsDigits(k)
    ensures Lookup(Str(s), "0" + k) == Lookup(Str(s), k)
  {
    DecimalLeadingZero(k);
    assert IsDigits("0" + k) by {
      assert forall i :: 1 <= i < |"0" + k| ==> ("0" + k)[i] == k[i - 1];
    }
  }

  lemma {:induction false} DecimalLeadingZero(k: string)
    requires forall i :: 0 <= i < |k| ==> IsDigit(k[i])
    ensures forall i :: 0 <= i < |"0" + k| ==> IsDigit(("0" + k)[i])
    ensures DecimalValue("0" + k) == DecimalValue(k)
  {
    var z := "0" + k;
    assert forall i :: 1 <= i < |z| ==> z[i] == k[i - 1];
    if k != [] {
      var p := k[..|k| - 1];
      DecimalLeadingZero(p);
      assert z[..|z| - 1] == "0" + p;
    } else {
      assert z[..0] == [];
    }
  }

  /** The key "-n" counts `n` characters back from the end of the string. */
  lemma StringLookupFromEnd(s: string, n: nat)
    requires n >= 1
    ensures Lookup(Str(s), "-" + Decimal(n)) == if n <= |s| then Some(Str([s[|s| - n]])) else None
  {
    var key := "-" + Decimal(n);
    assert !IsDigit(key[0]);
    assert key[1..] == Decimal(n);
  }

  /**
   * The `while (count($p) > 0)` walk: look each key up in turn; the first absent
   * key makes the whole walk null.
   */
  function Walk(v: Value, keys: seq<string>): Value
    decreases |keys|
  {
    if keys == [] then v
    else
      match Lookup(v, keys[0])
      case None => Null
      case Some(w) => Walk(w, keys[1..])
  }

  /** Once the walk has failed it stays failed. */
  lemma WalkNull(keys: seq<string>)
    ensures Walk(Null, keys) == Null
  {
  }

  /** Walking `a + b` is walking `a`, then walking `b` from where that ended. */
  lemma {:induction false} WalkAppend(v: Value, a: seq<string>, b: seq<string>)
    ensures Walk(v, a + b) == Walk(Walk(v, a), b)
    decreases |a|
  {
    if a == [] {
      assert a + b == b;
    } else {
      assert (a + b)[0] == a[0];
      assert (a + b)[1..] == a[1..] + b;
      match Lookup(v, a[0]) {
        case None => WalkNull(b);
        case Some(w) => WalkAppend(w, a[1..], b);
      }
    }
  }

  /**
   * A walk ends on a value exactly when it starts on one and every key is present
   * at the level the walk has reached by then.
   */
  lemma {:induction false} WalkFoundIff(v: Value, keys: seq<string>)
    ensures Walk(v, keys) != Null <==>
      v != Null && forall i :: 0 <= i < |keys| ==> Lookup(Walk(v, keys[..i]), keys[i]).Some?
    decreases |keys|
  {
    if keys != [] {
      assert keys[..0] == [];
      match Lookup(v, keys[0]) {
        case None =>
        case Some(w) =>
          WalkFoundIff(w, keys[1..]);
          forall i | 1 <= i < |keys|
            ensures Walk(v, keys[..i]) == Walk(w, keys[1..][..i - 1])
          {
            assert keys[..i][0] == keys[0];
            assert keys[..i][1..] == keys[1..][..i - 1];
          }
          forall i | 0 <= i < |keys[1..]|
            ensures Lookup(Walk(w, keys[1..][..i]), keys[1..][i]) == Lookup(Walk(v, keys[..i + 1]), keys[i + 1])
          {
          }
      }
    }
  }

  lemma {:induction false} LeadingDigitPositive(s: string)
    requires IsDigits(s) && s[0] != '0'
    ensures DecimalValue(s) >= 1
  {
    if |s| > 1 {
      assert (s[..|s| - 1])[0] == s[0];
      LeadingDigitPositive(s[..|s| - 1]);
    }
  }

  /** An index key is the decimal rendering of the number it denotes. */
  lemma {:induction false} DecimalOfIndexKey(s: string)
    requires IsIndexKey(s)
    ensures Decimal(DecimalValue(s)) == s
  {
    if |s| > 1 {
      var p := s[..|s| - 1];
      var d := s[|s| - 1];
      assert p[0] == s[0];
      LeadingDigitPositive(p);
      DecimalOfIndexKey(p);
      var r := d as int - '0' as int;
      assert IsDigit(d) && DecimalValue(s) == 10 * DecimalValue(p) + r;
      DecimalAppend(DecimalValue(p), r);
      assert s == p + [d];
    }
  }

  /** Appending a digit to a positive number's rendering renders ten times it plus that digit. */
  lemma DecimalAppend(q: nat, r: int)
    requires q >= 1 && 0 <= r < 10
    ensures Decimal(10 * q + r) == Decimal(q) + [('0' as int + r) as char]
  {
    DivMod10(q, r);
  }

  lemma DivMod10(q: nat, r: int)
    requires 0 <= r < 10
    ensures (10 * q + r) / 10 == q && (10 * q + r) % 10 == r
  {
  }

  /** Offset `i` of a list is found under the key `Decimal(i)`, when it is not null. */
  lemma ListLookupDecimal(xs: seq<Value>, i: nat)
    ensures Lookup(List(xs), Decimal(i)) == if i < |xs| && xs[i] != Null then Some(xs[i]) else None
  {
  }

  /** Every key that finds something in a list is the decimal rendering of its offset. */
  lemma ListLookupOnlyDecimal(xs: seq<Value>, key: string)
    requires Lookup(List(xs), key).Some?
    ensures DecimalValue(key) < |xs| && key == Decimal(DecimalValue(key))
    ensures Lookup(List(xs), key) == Some(xs[DecimalValue(key)])
  {
    DecimalOfIndexKey(key);
  }
}
