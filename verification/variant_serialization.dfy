/**
 * Boost serialisation of vtkVariant and vtkVariantArray, with the archive
 * modelled as a sequence of typed tokens: every `ar & x` writes or reads one
 * token of x's C++ type, and reading a token of another type fails.
 */
module VariantSerialization {
  import opened Wrappers
  import Arith

  /** The numeric value types a variant can be serialised with. */
  datatype Kind =
    | Char | UnsignedChar | Short | UnsignedShort | Int | UnsignedInt
    | Long | UnsignedLong | LongLong | UnsignedLongLong | Float | Double

  /** VTK's type codes (vtkType.h) for the numeric kinds and for strings. */
  function TypeCode(k: Kind): int {
    match k
    case Char => 2
    case UnsignedChar => 3
    case Short => 4
    case UnsignedShort => 5
    case Int => 6
    case UnsignedInt => 7
    case Long => 8
    case UnsignedLong => 9
    case Float => 10
    case Double => 11
    case LongLong => 16
    case UnsignedLongLong => 17
  }

  const StringCode := 13

  /** The numeric kind a type tag names, if any. */
  function KindOfCode(c: int): (r: Option<Kind>)
    ensures r.Some? ==> TypeCode(r.value) == c
    ensures (exists k :: TypeCode(k) == c) ==> r.Some?
  {
    if c == 2 then Some(Char)
    else if c == 3 then Some(UnsignedChar)
    else if c == 4 then Some(Short)
    else if c == 5 then Some(UnsignedShort)
    else if c == 6 then Some(Int)
    else if c == 7 then Some(UnsignedInt)
    else if c == 8 then Some(Long)
    else if c == 9 then Some(UnsignedLong)
    else if c == 10 then Some(Float)
    else if c == 11 then Some(Double)
    else if c == 16 then Some(LongLong)
    else if c == 17 then Some(UnsignedLongLong)
    else None
  }

  /**
   * A variant: invalid, a string, a number of a supported kind (float and
   * double payloads are opaque bit patterns), or a valid variant of a type
   * the serialiser does not support, such as an object.
   */
  datatype Variant = Invalid | Str(s: string) | Num(kind: Kind, n: int) | Unsupported(code: UnsupportedCode)

  /**
   * The VTK type id of a valid variant the serialiser does not support: a
   * positive id below 128 (as all of VTK's ids are) that is neither the
   * string code nor a supported numeric code.
   */
  type UnsupportedCode = c: int | 0 < c < 128 && c != StringCode && KindOfCode(c).None? witness 1

  /** A token of the archive: a value of a numeric C++ type, a string, or a vtkIdType. */
  datatype Token = NumTok(kind: Kind, n: int) | StrTok(s: string) | IdTok(id: int)

  datatype LoadError = Exhausted | TypeMismatch

  /** The type tag is written as a C++ `char`: the type code truncated to a signed byte. */
  function ToChar(c: int): (r: int)
    ensures -128 <= r < 128
    ensures -128 <= c < 128 ==> r == c
  {
    (c + 128) % 256 - 128
  }

  /** A tag that load neither reads as "invalid" nor as a supported type. */
  predicate UnknownTag(t: int) {
    t != 0 && t != StringCode && KindOfCode(t).None?
  }

  /** Saving a variant: tag 0 if invalid, else its type tag and, for a supported type, one value. */
  function Save(v: Variant): (r: seq<Token>)
    ensures |r| >= 1 && r[0].NumTok? && r[0].kind == Char
    ensures v.Invalid? ==> r == [NumTok(Char, 0)]
    ensures (v.Str? || v.Num?) ==> |r| == 2
    ensures v.Str? ==> r == [NumTok(Char, StringCode), StrTok(v.s)]
    ensures v.Num? ==> r == [NumTok(Char, TypeCode(v.kind)), NumTok(v.kind, v.n)]
    ensures v.Unsupported? ==> r == [NumTok(Char, ToChar(v.code))] && r[0].n == v.code && UnknownTag(r[0].n)
  {
    match v
    case Invalid => [NumTok(Char, 0)]
    case Str(s) => [NumTok(Char, StringCode), StrTok(s)]
    case Num(k, n) => [NumTok(Char, TypeCode(k)), NumTok(k, n)]
    case Unsupported(c) => [NumTok(Char, ToChar(c))]
  }

  /** `ar` ends with `rest`, which is strictly shorter. */
  predicate ProperSuffix(rest: seq<Token>, ar: seq<Token>) {
    |rest| < |ar| && ar[|ar| - |rest|..] == rest
  }

  /**
   * Loading a variant: read a `char` tag; 0 gives an invalid variant, a
   * supported type reads one value of that type, and any other tag gives an
   * invalid variant without reading further.  Returns the variant and the
   * rest of the archive.
   */
  function Load(ar: seq<Token>): (r: Result<(Variant, seq<Token>), LoadError>)
    ensures ar == [] ==> r == Failure(Exhausted)
    ensures r.Success? ==> ProperSuffix(r.value.1, ar)
    ensures r.Success? ==> !r.value.0.Unsupported?
    ensures |ar| > 0 && ar[0] == NumTok(Char, 0) ==> r == Success((Invalid, ar[1..]))
    ensures |ar| > 0 && ar[0].NumTok? && ar[0].kind == Char && UnknownTag(ar[0].n) ==> r == Success((Invalid, ar[1..]))
    ensures |ar| > 0 && !(ar[0].NumTok? && ar[0].kind == Char) ==> r == Failure(TypeMismatch)
  {
    if ar == [] then Failure(Exhausted)
    else if !(ar[0].NumTok? && ar[0].kind == Char) then Failure(TypeMismatch)
    else
      var tag := ar[0].n;
      if tag == 0 then Success((Invalid, ar[1..]))
      else if tag == StringCode then
        if |ar| < 2 then Failure(Exhausted)
        else if !ar[1].StrTok? then Failure(TypeMismatch)
        else Success((Str(ar[1].s), ar[2..]))
      else match KindOfCode(tag)
        case Some(k) =>
          if |ar| < 2 then Failure(Exhausted)
          else if !(ar[1].NumTok? && ar[1].kind == k) then Failure(TypeMismatch)
          else Success((Num(k, ar[1].n), ar[2..]))
        case None => Success((Invalid, ar[1..]))
  }

  /** What loading a saved variant gives back: the variant itself, except that unsupported types come back invalid. */
  function Restored(v: Variant): Variant {
    if v.Unsupported? then Invalid else v
  }

  /** load(save(v)) == v for invalid variants and every supported type, whatever follows in the archive. */
  lemma LoadSave(v: Variant, rest: seq<Token>)
    ensures Load(Save(v) + rest) == Success((Restored(v), rest))
  {
    var ar := Save(v) + rest;
    match v
    case Invalid =>
      assert ar[1..] == rest;
    case Str(s) =>
      assert ar[1] == StrTok(s) && ar[2..] == rest;
    case Num(k, n) =>
      assert ar[1] == NumTok(k, n) && ar[2..] == rest;
      assert KindOfCode(TypeCode(k)) == Some(k);
    case Unsupported(c) =>
      assert ar[1..] == rest;
  }

  /** Every supported type code fits in a signed byte, so its tag is written unchanged and is not unknown. */
  lemma SupportedTagsSurviveTruncation(k: Kind)
    ensures ToChar(TypeCode(k)) == TypeCode(k) && !UnknownTag(TypeCode(k))
  {
  }

  /** `Restored` applied to every variant of a sequence. */
  function RestoredAll(vs: seq<Variant>): (r: seq<Variant>)
    ensures |r| == |vs| && forall i :: 0 <= i < |vs| ==> r[i] == Restored(vs[i])
  {
    if vs == [] then [] else [Restored(vs[0])] + RestoredAll(vs[1..])
  }

  /** Saving a sequence of variants one after another. */
  function SaveAll(vs: seq<Variant>): (r: seq<Token>)
    ensures |r| >= |vs|
    ensures vs == [] ==> r == []
    ensures vs != [] ==> |Save(vs[0])| <= |r| && r[..|Save(vs[0])|] == Save(vs[0])
  {
    if vs == [] then [] else Save(vs[0]) + SaveAll(vs[1..])
  }

  /** Saving one more variant appends its tokens: the archive is the saved variants, in order. */
  lemma {:induction false} SaveAllAppend(vs: seq<Variant>, v: Variant)
    ensures SaveAll(vs + [v]) == SaveAll(vs) + Save(v)
  {
    if vs == [] {
      assert vs + [v] == [v];
      assert SaveAll([v]) == Save(v) + SaveAll([]);
    } else {
      assert (vs + [v])[0] == vs[0];
      assert (vs + [v])[1..] == vs[1..] + [v];
      SaveAllAppend(vs[1..], v);
    }
  }

  /** Loading `n` variants one after another (no variant when `n` is not positive). */
  function LoadN(ar: seq<Token>, n: int): (r: Result<(seq<Variant>, seq<Token>), LoadError>)
    ensures r.Success? ==> |r.value.0| == (if n < 0 then 0 else n)
    ensures r.Success? ==> |r.value.1| <= |ar| && ar[|ar| - |r.value.1|..] == r.value.1
    decreases if n < 0 then 0 else n
  {
    if n <= 0 then Success(([], ar))
    else
      match Load(ar)
      case Failure(e) => Failure(e)
      case Success((v, ar1)) =>
        match LoadN(ar1, n - 1)
        case Failure(e) => Failure(e)
        case Success((vs, ar2)) => Success(([v] + vs, ar2))
  }

  /** Loading back `|vs|` saved variants restores each of them, in order. */
  lemma {:induction false} LoadNSaveAll(vs: seq<Variant>, rest: seq<Token>)
    ensures LoadN(SaveAll(vs) + rest, |vs|) == Success((RestoredAll(vs), rest))
  {
    if vs != [] {
      var tail := SaveAll(vs[1..]) + rest;
      assert SaveAll(vs) + rest == Save(vs[0]) + tail;
      LoadSave(vs[0], tail);
      LoadNSaveAll(vs[1..], rest);
      assert |vs[1..]| == |vs| - 1;
    }
  }

  /**
   * A vtkVariantArray: an optional name, a component count, and its values in
   * tuple-major order (value `t*k + c` is component `c` of tuple `t`).
   */
  datatype VariantArray = VariantArray(name: Option<string>, numComponents: nat, values: seq<Variant>)

  /** The tuple count: the number of whole tuples of `numComponents` values. */
  function NumberOfTuples(a: VariantArray): (n: nat)
    requires a.numComponents >= 1
    ensures n <= n * a.numComponents <= |a.values|
    ensures |a.values| - n * a.numComponents < a.numComponents
  {
    var n := |a.values| / a.numComponents;
    Arith.MulMonotone(1, a.numComponents, n);
    n
  }

  /** A vtkVariantArray as the class keeps it: at least one component and whole tuples only. */
  predicate WellFormed(a: VariantArray) {
    a.numComponents >= 1 && |a.values| == NumberOfTuples(a) * a.numComponents
  }

  /**
   * Saving an array as written: the name (empty when there is none), the
   * tuple count `n`, then the values at flat indices `0 .. n-1`.  For more
   * than one component these are only the first `n` of the `n*k` values.
   */
  function SaveArray(a: VariantArray): (r: seq<Token>)
    requires a.numComponents >= 1
    ensures |r| >= 2 + NumberOfTuples(a)
    ensures r[0] == StrTok(if a.name.None? then "" else a.name.value)
    ensures r[1] == IdTok(NumberOfTuples(a))
    ensures r[2..] == SaveAll(a.values[..NumberOfTuples(a)])
  {
    var name := if a.name.None? then "" else a.name.value;
    var n := NumberOfTuples(a);
    [StrTok(name), IdTok(n)] + SaveAll(a.values[..n])
  }

  /** `m` default-constructed (invalid) variants. */
  function Invalids(m: nat): (r: seq<Variant>)
    ensures |r| == m && forall i :: 0 <= i < m ==> r[i] == Invalid
  {
    seq(m, _ => Invalid)
  }

  /**
   * Loading an array as written, into a fresh array of `k` components: a
   * name (the empty name becomes no name), a count `n`, room for `n` tuples,
   * then `n` variants stored at flat indices `0 .. n-1`.  The other slots
   * keep their default, invalid, variant.  A negative count reads no values.
   */
  function LoadArray(ar: seq<Token>, k: nat): (r: Result<(VariantArray, seq<Token>), LoadError>)
    requires k >= 1
    ensures |ar| < 2 ==> r == Failure(Exhausted)
    ensures r.Success? ==> ProperSuffix(r.value.1, ar)
    ensures r.Success? ==> r.value.0.name != Some("")
    ensures r.Success? ==> ar[0].StrTok? && ar[1].IdTok?
    ensures r.Success? ==> r.value.0.name == (if ar[0].s == "" then None else Some(ar[0].s))
    ensures r.Success? ==> WellFormed(r.value.0) && r.value.0.numComponents == k
    ensures r.Success? ==> NumberOfTuples(r.value.0) == (if ar[1].id < 0 then 0 else ar[1].id)
    ensures r.Success? ==> forall i :: NumberOfTuples(r.value.0) <= i < |r.value.0.values| ==> r.value.0.values[i] == Invalid
  {
    if |ar| < 2 then Failure(Exhausted)
    else if !ar[0].StrTok? || !ar[1].IdTok? then Failure(TypeMismatch)
    else
      var name := if ar[0].s == "" then None else Some(ar[0].s);
      match LoadN(ar[2..], ar[1].id)
      case Failure(e) => Failure(e)
      case Success((vs, rest)) => Success((Padded(name, k, vs), rest))
  }

  /** A fresh `k`-component array sized for `|vs|` tuples, with `vs` stored at the first flat indices. */
  function Padded(name: Option<string>, k: nat, vs: seq<Variant>): (r: VariantArray)
    requires k >= 1
    ensures r.name == name && r.numComponents == k && WellFormed(r) && NumberOfTuples(r) == |vs|
    ensures r.values[..|vs|] == vs
    ensures forall i :: |vs| <= i < |r.values| ==> r.values[i] == Invalid
  {
    var n := |vs|;
    var values := vs + Invalids(n * (k - 1));
    Arith.MulSucc(k - 1, n);
    assert |values| == n * k;
    Arith.DivModOfRowMajor(n, 0, k);
    VariantArray(name, k, values)
  }

  /** What loading a saved array gives back: an empty name comes back as no name, and each value as `Restored`. */
  function RestoredArray(a: VariantArray): VariantArray {
    VariantArray(if a.name == Some("") then None else a.name, a.numComponents, RestoredAll(a.values))
  }

  /**
   * Loading a saved array into an array of the same component count gives
   * back the name, the tuple count, and the first `n` values restored; the
   * remaining `n*(k-1)` slots come back invalid.
   */
  lemma LoadArraySaveArray(a: VariantArray, rest: seq<Token>)
    requires a.numComponents >= 1
    ensures var n := NumberOfTuples(a);
      LoadArray(SaveArray(a) + rest, a.numComponents)
        == Success((VariantArray(RestoredArray(a).name, a.numComponents,
                                 RestoredAll(a.values[..n]) + Invalids(n * (a.numComponents - 1))), rest))
  {
    var n := NumberOfTuples(a);
    var ar := SaveArray(a) + rest;
    assert ar[2..] == SaveAll(a.values[..n]) + rest;
    LoadNSaveAll(a.values[..n], rest);
  }

  /**
   * A well-formed array round-trips exactly when every value past the first
   * `n` restores to an invalid variant; in particular every single-component
   * array round-trips, and a multi-component array with a valid value past
   * the first `n` loses it.
   */
  lemma ArrayRoundTripIff(a: VariantArray, rest: seq<Token>)
    requires WellFormed(a)
    ensures LoadArray(SaveArray(a) + rest, a.numComponents) == Success((RestoredArray(a), rest))
      <==> forall i :: NumberOfTuples(a) <= i < |a.values| ==> Restored(a.values[i]) == Invalid
  {
    var n, k := NumberOfTuples(a), a.numComponents;
    LoadArraySaveArray(a, rest);
    Arith.MulSucc(k - 1, n);
    var back := RestoredAll(a.values[..n]) + Invalids(n * (k - 1));
    assert |back| == |a.values|;
    var want := RestoredAll(a.values);
    if forall i :: n <= i < |a.values| ==> Restored(a.values[i]) == Invalid {
      forall i | 0 <= i < |a.values|
        ensures back[i] == want[i]
      {
        if i < n {
          assert back[i] == RestoredAll(a.values[..n])[i] == Restored(a.values[i]);
        }
      }
      assert back == want;
    } else {
      var i :| n <= i < |a.values| && Restored(a.values[i]) != Invalid;
      assert back[i] == Invalid != want[i];
    }
  }

  /** A single-component array round-trips: same name (an empty name comes back null) and every value restored, in order. */
  lemma SingleComponentArrayRoundTrips(a: VariantArray, rest: seq<Token>)
    requires a.numComponents == 1
    ensures LoadArray(SaveArray(a) + rest, 1) == Success((RestoredArray(a), rest))
  {
    ArrayRoundTripIff(a, rest);
  }

  /**
   * Saving an array with all its values: the name, the tuple count `n`, then
   * every one of the `n*k` values in flat order.
   */
  function SaveArrayAllValues(a: VariantArray): (r: seq<Token>)
    requires a.numComponents >= 1
    ensures |r| >= 2 + |a.values|
    ensures r[0] == StrTok(if a.name.None? then "" else a.name.value)
    ensures r[1] == IdTok(NumberOfTuples(a))
    ensures r[2..] == SaveAll(a.values)
  {
    var name := if a.name.None? then "" else a.name.value;
    [StrTok(name), IdTok(NumberOfTuples(a))] + SaveAll(a.values)
  }

  /**
   * Loading into a fresh `k`-component array with all its values: a name, a
   * count `n` of tuples, then `n*k` variants.  A negative count reads none.
   */
  function LoadArrayAllValues(ar: seq<Token>, k: nat): (r: Result<(VariantArray, seq<Token>), LoadError>)
    requires k >= 1
    ensures |ar| < 2 ==> r == Failure(Exhausted)
    ensures r.Success? ==> ProperSuffix(r.value.1, ar)
    ensures r.Success? ==> ar[0].StrTok? && ar[1].IdTok?
    ensures r.Success? ==> r.value.0.name == (if ar[0].s == "" then None else Some(ar[0].s))
    ensures r.Success? ==> WellFormed(r.value.0) && r.value.0.numComponents == k
    ensures r.Success? ==> NumberOfTuples(r.value.0) == (if ar[1].id < 0 then 0 else ar[1].id)
  {
    if |ar| < 2 then Failure(Exhausted)
    else if !ar[0].StrTok? || !ar[1].IdTok? then Failure(TypeMismatch)
    else
      var name := if ar[0].s == "" then None else Some(ar[0].s);
      var n: nat := if ar[1].id < 0 then 0 else ar[1].id;
      match LoadN(ar[2..], n * k)
      case Failure(e) => Failure(e)
      case Success((vs, rest)) =>
        Arith.DivModOfRowMajor(n, 0, k);
        Success((VariantArray(name, k, vs), rest))
  }

  /** With every value written and read, every well-formed array round-trips into an array of its component count. */
  lemma LoadArraySaveArrayAllValues(a: VariantArray, rest: seq<Token>)
    requires WellFormed(a)
    ensures LoadArrayAllValues(SaveArrayAllValues(a) + rest, a.numComponents) == Success((RestoredArray(a), rest))
  {
    var ar := SaveArrayAllValues(a) + rest;
    assert ar[2..] == SaveAll(a.values) + rest;
    LoadNSaveAll(a.values, rest);
  }

  /** The string pass-through: a string is one string token. */
  function SaveString(s: string): (r: seq<Token>)
    ensures |r| == 1 && r[0].StrTok? && r[0].s == s
  {
    [StrTok(s)]
  }

  /** Loading a string reads one string token, unchanged. */
  function LoadString(ar: seq<Token>): (r: Result<(string, seq<Token>), LoadError>)
    ensures ar == [] ==> r == Failure(Exhausted)
    ensures r.Success? <==> ar != [] && ar[0].StrTok?
    ensures r.Success? ==> r.value.0 == ar[0].s && r.value.1 == ar[1..] && ProperSuffix(r.value.1, ar)
  {
    if ar == [] then Failure(Exhausted)
    else if !ar[0].StrTok? then Failure(TypeMismatch)
    else Success((ar[0].s, ar[1..]))
  }

  /** Strings round-trip exactly. */
  lemma LoadStringSaveString(s: string, rest: seq<Token>)
    ensures LoadString(SaveString(s) + rest) == Success((s, rest))
  {
    assert (SaveString(s) + rest)[1..] == rest;
  }
}
