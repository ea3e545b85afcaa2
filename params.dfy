/** The integer and list logic of the parameter reader: geometry to
    dimension counts, list normalisation, the species lookup and the
    patch-count exponents. Values that the source extracts from the embedded
    interpreter arrive here as arguments. */
module Params {
  import opened Wrappers
  import opened Vectors
  import opened Arith

  // ---------------------------------------------------------------------
  // Geometry
  // ---------------------------------------------------------------------

  /** (nDim_particle, nDim_field). */
  datatype Dimensions = Dimensions(nDimParticle: nat, nDimField: nat)

  const KnownGeometries: set<string> := {"1d3v", "2d3v", "3d3v", "2drz"}

  /** setDimensions: the geometry string fixes the number of particle and
      field dimensions; any other string is the fatal error. */
  function SetDimensions(geometry: string): (r: Result<Dimensions>)
    ensures r.Success? <==> geometry in KnownGeometries
    ensures r.Success? ==> 1 <= r.value.nDimField <= r.value.nDimParticle <= 3
    ensures r.Success? ==> (r.value.nDimParticle == r.value.nDimField <==> geometry != "2drz")
    ensures r.Failure? ==> r.error == "Geometry: " + geometry + " not defined"
  {
    if geometry == "1d3v" then Success(Dimensions(1, 1))
    else if geometry == "2d3v" then Success(Dimensions(2, 2))
    else if geometry == "3d3v" then Success(Dimensions(3, 3))
    else if geometry == "2drz" then Success(Dimensions(3, 2))
    else Failure("Geometry: " + geometry + " not defined")
  }

  /** The geometry a pair of dimension counts stands for, read back. */
  function GeometryOf(d: Dimensions): Option<string>
  {
    if d == Dimensions(1, 1) then Some("1d3v")
    else if d == Dimensions(2, 2) then Some("2d3v")
    else if d == Dimensions(3, 3) then Some("3d3v")
    else if d == Dimensions(3, 2) then Some("2drz")
    else None
  }

  /** The table of setDimensions. */
  lemma SetDimensionsTable()
    ensures SetDimensions("1d3v") == Success(Dimensions(1, 1))
    ensures SetDimensions("2d3v") == Success(Dimensions(2, 2))
    ensures SetDimensions("3d3v") == Success(Dimensions(3, 3))
    ensures SetDimensions("2drz") == Success(Dimensions(3, 2))
  {
  }

  /** Distinct geometries give distinct dimension pairs: the counts determine
      the geometry they were read from. */
  lemma {:induction false} SetDimensionsRoundTrip(geometry: string)
    requires geometry in KnownGeometries
    ensures SetDimensions(geometry).Success?
    ensures GeometryOf(SetDimensions(geometry).value) == Some(geometry)
  {
    assert geometry == "1d3v" || geometry == "2d3v" || geometry == "3d3v" || geometry == "2drz";
  }

  /** The constructor's check of `dim` before setDimensions: only 1d3v and
      2d3v get through, so the counts it installs are always equal. */
  function ReadGeometry(geometry: string): (r: Result<Dimensions>)
    ensures r.Success? <==> geometry == "1d3v" || geometry == "2d3v"
    ensures r.Success? ==> r.value.nDimParticle == r.value.nDimField
    ensures r.Success? ==> r.value.nDimField == (if geometry == "1d3v" then 1 else 2)
  {
    if geometry != "1d3v" && geometry != "2d3v" then
      Failure("Geometry " + geometry + " does not exist")
    else
      SetDimensions(geometry)
  }

  // ---------------------------------------------------------------------
  // List normalisation
  // ---------------------------------------------------------------------

  /** bc_em_type_x (and _y, _z): a single entry stands for both faces of the
      axis and is copied to the second slot; other lists are kept. */
  function NormaliseBoundaryTypes(types: seq<string>): (r: seq<string>)
    ensures |types| == 1 ==> r == [types[0], types[0]]
    ensures |types| != 1 ==> r == types
  {
    if |types| == 1 then Resize(types, 2, "")[1 := types[0]] else types
  }

  /** Normalising twice is normalising once, and the result never has the
      one-entry shape the rule rewrites. */
  lemma NormaliseBoundaryTypesIdempotent(types: seq<string>)
    ensures NormaliseBoundaryTypes(NormaliseBoundaryTypes(types)) == NormaliseBoundaryTypes(types)
    ensures |NormaliseBoundaryTypes(types)| != 1
    ensures forall t :: t in NormaliseBoundaryTypes(types) ==> t in types
  {
  }

  /** thermT: a defined one-entry temperature is used for all three
      directions, a defined list of another length is kept, and an undefined
      one becomes three zeros. */
  method NormaliseThermT(defined: bool, thermT: seq<real>) returns (r: seq<real>)
    ensures defined && |thermT| == 1 ==> r == [thermT[0], thermT[0], thermT[0]]
    ensures defined && |thermT| != 1 ==> r == thermT
    ensures !defined ==> r == [0.0, 0.0, 0.0]
  {
    r := thermT;
    if defined {
      if |r| == 1 {
        r := Resize(r, 3, 0.0);
        for i := 1 to 3
          invariant |r| == 3 && r[0] == thermT[0]
          invariant forall k :: 1 <= k < i ==> r[k] == thermT[0]
        {
          r := r[i := r[0]];
        }
      }
    } else {
      r := Resize(r, 3, 0.0);
      for i := 0 to 3
        invariant |r| == 3
        invariant forall k :: 0 <= k < i ==> r[k] == 0.0
      {
        r := r[i := 0.0];
      }
    }
  }

  /** The x, y and z profiles of a three-component quantity. */
  datatype Profiles<P> = Profiles(x: P, y: P, z: P)

  /** extract3Profiles: one component serves all three directions, three
      are taken in order, any other count is the fatal error. */
  function Extract3Profiles<P>(varname: string, ispec: nat, pvec: seq<P>): (r: Result<Profiles<P>>)
    ensures r.Success? <==> |pvec| == 1 || |pvec| == 3
    ensures |pvec| == 1 ==> r.Success? && r.value == Profiles(pvec[0], pvec[0], pvec[0])
    ensures |pvec| == 3 ==> r.Success? && r.value == Profiles(pvec[0], pvec[1], pvec[2])
    ensures r.Failure? ==>
      r.error == "For species #" + NatToString(ispec) + ", " + varname + " needs 1 or 3 components"
  {
    if |pvec| == 1 then
      Success(Profiles(pvec[0], pvec[0], pvec[0]))
    else if |pvec| == 3 then
      Success(Profiles(pvec[0], pvec[1], pvec[2]))
    else
      Failure("For species #" + NatToString(ispec) + ", " + varname + " needs 1 or 3 components")
  }

  /** Decimal digits of `n`, as the error stream prints it. */
  function NatToString(n: nat): (s: string)
    ensures |s| >= 1
    decreases n
  {
    var digit := ['0' + (n % 10) as char];
    if n < 10 then digit else NatToString(n / 10) + digit
  }

  // ---------------------------------------------------------------------
  // FindSpecies
  // ---------------------------------------------------------------------

  /** The one field of a species' parameters that the lookup reads. */
  datatype SpeciesStructure = SpeciesStructure(speciesType: string)

  /** The names of the existing species, in declaration order. */
  function SpeciesTypes(speciesParam: seq<SpeciesStructure>): (names: seq<string>)
    ensures |names| == |speciesParam|
    ensures forall i :: 0 <= i < |speciesParam| ==> names[i] == speciesParam[i].speciesType
  {
    seq(|speciesParam|, i requires 0 <= i < |speciesParam| => speciesParam[i].speciesType)
  }

  predicate StrictlyIncreasing(s: seq<nat>)
  {
    forall a, b :: 0 <= a < b < |s| ==> s[a] < s[b]
  }

  /** `rs` is the first requested name that no existing species carries. */
  predicate FirstMissing(names: seq<string>, requested: seq<string>, rs: nat)
  {
    && rs < |requested|
    && requested[rs] !in names
    && forall k :: 0 <= k < rs ==> requested[k] in names
  }

  function SpeciesNotFound(name: string): string
  {
    "Species `" + name + "` was not found."
  }

  /** The insertion step of FindSpecies: `es` goes before the first larger
      entry, is skipped if already present, and is appended otherwise. */
  method InsertSorted(result: seq<nat>, es: nat) returns (r: seq<nat>)
    requires StrictlyIncreasing(result)
    ensures StrictlyIncreasing(r)
    ensures forall x :: x in r <==> x in result || x == es
  {
    r := result;
    var i := 0;
    while i < |r|
      invariant 0 <= i <= |r| && r == result
      invariant forall k :: 0 <= k < i ==> r[k] < es
    {
      if es == r[i] {
        break;
      }
      if es < r[i] {
        r := r[..i] + [es] + r[i..];
        break;
      }
      i := i + 1;
    }
    if i == |r| {
      r := r + [es];
    }
  }

  /** FindSpecies: the indices of every species whose type is one of the
      requested names, increasing and without repeats; the fatal error names
      the first requested name that matches no species. */
  method FindSpecies(speciesParam: seq<SpeciesStructure>, requested: seq<string>)
    returns (r: Result<seq<nat>>)
    ensures r.Success? <==>
      forall rs :: 0 <= rs < |requested| ==> requested[rs] in SpeciesTypes(speciesParam)
    ensures r.Success? ==> StrictlyIncreasing(r.value)
    ensures r.Success? ==> forall k :: 0 <= k < |r.value| ==> r.value[k] < |speciesParam|
    ensures r.Success? ==> forall es :: 0 <= es < |speciesParam| ==>
      (es in r.value <==> speciesParam[es].speciesType in requested)
    ensures r.Failure? ==> exists rs :: (0 <= rs < |requested|
      && FirstMissing(SpeciesTypes(speciesParam), requested, rs)
      && r.error == SpeciesNotFound(requested[rs]))
  {
    var existing: seq<string> := [];
    for ispec := 0 to |speciesParam|
      invariant existing == SpeciesTypes(speciesParam[..ispec])
    {
      existing := existing + [speciesParam[ispec].speciesType];
    }
    assert speciesParam[..|speciesParam|] == speciesParam;

    var result: seq<nat> := [];
    for rs := 0 to |requested|
      invariant StrictlyIncreasing(result)
      invariant forall x :: x in result ==> x < |existing|
      invariant forall es :: 0 <= es < |existing| ==> (es in result <==> existing[es] in requested[..rs])
      invariant forall k :: 0 <= k < rs ==> requested[k] in existing
    {
      var speciesFound := false;
      for es := 0 to |existing|
        invariant speciesFound <==> requested[rs] in existing[..es]
        invariant StrictlyIncreasing(result)
        invariant forall x :: x in result ==> x < |existing|
        invariant forall e :: 0 <= e < |existing| ==>
          (e in result <==> existing[e] in requested[..rs] || (e < es && existing[e] == requested[rs]))
      {
        assert existing[..es + 1] == existing[..es] + [existing[es]];
        if requested[rs] == existing[es] {
          speciesFound := true;
          result := InsertSorted(result, es);
        }
      }
      assert existing[..|existing|] == existing;
      if !speciesFound {
        assert FirstMissing(existing, requested, rs);
        return Failure(SpeciesNotFound(requested[rs]));
      }
      assert requested[..rs + 1] == requested[..rs] + [requested[rs]];
    }
    assert requested[..|requested|] == requested;
    assert forall k :: 0 <= k < |result| ==> result[k] in result;
    r := Success(result);
  }

  // ---------------------------------------------------------------------
  // Patch-count exponents
  // ---------------------------------------------------------------------

  function Pow2(k: nat): (p: nat)
    ensures p >= 1
  {
    if k == 0 then 1 else 2 * Pow2(k - 1)
  }

  /** `n >> k` for an unsigned `n`: `k` successive halvings. */
  function ShiftRight(n: nat, k: nat): (r: nat)
    ensures r <= n
    ensures k > 0 && n > 0 ==> r < n
  {
    if k == 0 then n else ShiftRight(n, k - 1) / 2
  }

  /** `m` is where `while ((n >> m) > 1) m++` stops when started from 0:
      the least `m` with `(n >> m) <= 1`. */
  predicate IsPatchExponent(n: nat, m: nat)
  {
    ShiftRight(n, m) <= 1 && forall k :: 0 <= k < m ==> ShiftRight(n, k) > 1
  }

  /** The loop `while ((n >> mi) > 1) mi++` started at 0. */
  method PatchExponent(n: nat) returns (mi: nat)
    ensures IsPatchExponent(n, mi)
  {
    mi := 0;
    while ShiftRight(n, mi) > 1
      invariant forall k :: 0 <= k < mi ==> ShiftRight(n, k) > 1
      decreases ShiftRight(n, mi)
    {
      mi := mi + 1;
    }
  }

  /** `n >> k` is floor(n / 2^k). */
  lemma {:induction false} ShiftRightBounds(n: nat, k: nat)
    ensures Pow2(k) * ShiftRight(n, k) <= n < Pow2(k) * (ShiftRight(n, k) + 1)
  {
    if k > 0 {
      ShiftRightBounds(n, k - 1);
      HalvingStep(n, Pow2(k - 1), ShiftRight(n, k - 1));
    }
  }

  /** One more halving doubles the divisor of the bracket. */
  lemma HalvingStep(n: nat, p: nat, s: nat)
    requires p * s <= n < p * (s + 1)
    ensures (2 * p) * (s / 2) <= n < (2 * p) * (s / 2 + 1)
  {
    var q := s / 2;
    assert 2 * q <= s <= 2 * q + 1;
    calc {
      (2 * p) * q;
    == p * (2 * q);
    <= { MulMonotone(2 * q, s, p); }
      p * s;
    }
    calc {
      p * (s + 1);
    <= { MulMonotone(s + 1, 2 * q + 2, p); }
      p * (2 * q + 2);
    == (2 * p) * (q + 1);
    }
  }

  lemma {:induction false} ShiftRightIsDivision(n: nat, k: nat)
    ensures ShiftRight(n, k) == n / Pow2(k)
  {
    ShiftRightBounds(n, k);
    DivisionUnique(n, Pow2(k), ShiftRight(n, k));
  }

  lemma DivisionUnique(n: nat, p: nat, s: nat)
    requires p >= 1 && p * s <= n < p * (s + 1)
    ensures n / p == s
  {
    var q: nat, r: nat := n / p, n % p;
    var q1: nat, s1: nat := q + 1, s + 1;
    assert n == p * q + r && 0 <= r < p;
    if q < s {
      MulMonotone(q1, s, p);
      assert false;
    } else if q > s {
      MulMonotone(s1, q, p);
      assert false;
    }
  }

  /** For n >= 1 the loop stops at floor(log2 n); for n = 0 it does not run. */
  lemma {:induction false} PatchExponentIsFloorLog2(n: nat, m: nat)
    requires IsPatchExponent(n, m)
    ensures n >= 1 ==> Pow2(m) <= n < Pow2(m + 1)
    ensures n == 0 ==> m == 0
  {
    if n >= 1 {
      if m > 0 {
        assert ShiftRight(n, m - 1) > 1;
      }
      assert ShiftRight(n, m) == 1;
      ShiftRightBounds(n, m);
    } else {
      assert ShiftRight(n, 0) == 0;
    }
  }

  /** For a 32-bit unsigned count the exponent is below 32, so no shift in
      the loop is by the full width of the type. */
  lemma {:induction false} PatchExponentFitsUnsigned(n: nat, m: nat)
    requires n < 0x1_0000_0000 && IsPatchExponent(n, m)
    ensures m < 32
  {
    PatchExponentIsFloorLog2(n, m);
    if n >= 1 && m >= 32 {
      Pow2Monotone(32, m);
      Pow2Of32();
    }
  }

  lemma {:induction false} Pow2Monotone(a: nat, b: nat)
    requires a <= b
    ensures Pow2(a) <= Pow2(b)
    decreases b - a
  {
    if a < b {
      Pow2Monotone(a, b - 1);
    }
  }

  lemma Pow2Of32()
    ensures Pow2(32) == 0x1_0000_0000
  {
    assert Pow2(2) == 4;
    assert Pow2(4) == 16;
    Pow2Add(4, 4);
    Pow2Add(8, 8);
    Pow2Add(16, 16);
  }

  lemma {:induction false} Pow2Add(a: nat, b: nat)
    ensures Pow2(a + b) == Pow2(a) * Pow2(b)
    decreases b
  {
    if b > 0 {
      Pow2Add(a, b - 1);
      assert Pow2(a + b) == 2 * Pow2(a + b - 1);
    }
  }

  /** The exponents per axis as the constructor computes them:
      mi.resize(3, 0), the loop for axis 0, the loop for axis 1 when there
      are at least two counts, and an `else if` for axis 2 that is never
      taken, so mi[2] stays 0. */
  method PatchExponents(numberOfPatches: seq<nat>) returns (mi: seq<nat>)
    requires |numberOfPatches| >= 1
    ensures |mi| == 3
    ensures IsPatchExponent(numberOfPatches[0], mi[0])
    ensures |numberOfPatches| > 1 ==> IsPatchExponent(numberOfPatches[1], mi[1])
    ensures |numberOfPatches| <= 1 ==> mi[1] == 0
    ensures mi[2] == 0
  {
    mi := Resize([], 3, 0);
    var e := PatchExponent(numberOfPatches[0]);
    mi := mi[0 := e];
    if |numberOfPatches| > 1 {
      e := PatchExponent(numberOfPatches[1]);
      mi := mi[1 := e];
    } else if |numberOfPatches| > 2 {
      // an `else` of `size > 1` with `size > 2`: unreachable
      // the source runs `while ((numberOfPatches[2] >> mi[2]) > 1) mi[2]++` here
      assert false;
    }
  }

  /** With three counts [1, 1, 4] the third exponent should be 2 (4 >> 2 is
      1), but the constructor leaves it at 0. */
  method PatchExponentsMissesThirdAxis() returns (mi: seq<nat>)
    ensures |mi| == 3 && mi[2] == 0
    ensures !IsPatchExponent(4, mi[2]) && IsPatchExponent(4, 2)
  {
    mi := PatchExponents([1, 1, 4]);
    assert ShiftRight(4, 1) == 2;
  }

  /** The evidently intended computation: each of the first three axes that
      has a count gets its exponent. */
  method PatchExponentsIntended(numberOfPatches: seq<nat>) returns (mi: seq<nat>)
    requires |numberOfPatches| >= 1
    ensures |mi| == 3
    ensures forall k :: 0 <= k < 3 && k < |numberOfPatches| ==> IsPatchExponent(numberOfPatches[k], mi[k])
    ensures forall k :: |numberOfPatches| <= k < 3 ==> mi[k] == 0
  {
    mi := Resize([], 3, 0);
    var e := PatchExponent(numberOfPatches[0]);
    mi := mi[0 := e];
    if |numberOfPatches| > 1 {
      e := PatchExponent(numberOfPatches[1]);
      mi := mi[1 := e];
    }
    if |numberOfPatches| > 2 {
      e := PatchExponent(numberOfPatches[2]);
      mi := mi[2 := e];
    }
  }
}
