/**
 * The addition chain that the three permutations share for the fifth root: 305 squarings and products that raise
 * their argument to a fixed power.
 */
module AdditionChain {
  import opened Algebra
  import opened Bits
  import opened Poseidon
  import ScalarField

  /** The exponent: five times it is one more than twice the order of the multiplicative group. */
  const ROOT: nat := 20974350070050476191779096203274386335076221000211055129041463479975432473805

  /** The small powers that the chain multiplies in. */
  datatype Table<!T> = Table(
      p5: T, p7: T, p11: T, p13: T, p15: T, p17: T, p19: T, p23: T, p33: T, p35: T,
      p37: T, p39: T, p43: T, p47: T, p51: T, p53: T, p57: T, p61: T, p92: T) {
    ghost predicate Of(R: Ring<T>, x: T) {
      && p5 == Pow(R, x, 5) && p7 == Pow(R, x, 7) && p11 == Pow(R, x, 11) && p13 == Pow(R, x, 13)
      && p15 == Pow(R, x, 15) && p17 == Pow(R, x, 17) && p19 == Pow(R, x, 19) && p23 == Pow(R, x, 23)
      && p33 == Pow(R, x, 33) && p35 == Pow(R, x, 35) && p37 == Pow(R, x, 37) && p39 == Pow(R, x, 39)
      && p43 == Pow(R, x, 43) && p47 == Pow(R, x, 47) && p51 == Pow(R, x, 51) && p53 == Pow(R, x, 53)
      && p57 == Pow(R, x, 57) && p61 == Pow(R, x, 61) && p92 == Pow(R, x, 92)
    }
  }

  method Multiply<T(!new)>(R: Ring<T>, a: T, b: T, ghost x: T, ghost m: nat, ghost n: nat, ghost k: nat)
    returns (c: T)
    requires IsRing(R) && a == Pow(R, x, m) && b == Pow(R, x, n) && k == m + n
    ensures c == Pow(R, x, k)
  {
    c := R.Mul(a, b);
    PowAdd(R, x, m, n);
  }

  /** Squares as often as asked, then multiplies. */
  method ShiftMultiply<T(!new)>(
      R: Ring<T>, a: T, times: nat, b: T, ghost x: T, ghost m: nat, ghost n: nat, ghost k: nat)
    returns (c: T)
    requires IsRing(R) && a == Pow(R, x, m) && b == Pow(R, x, n) && k == m * Pow2(times) + n
    ensures c == Pow(R, x, k)
  {
    c := a;
    ghost var e: nat := m;
    for i := 0 to times
      invariant c == Pow(R, x, e) && e == m * Pow2(i)
    {
      PowAdd(R, x, e, e);
      assert m * Pow2(i + 1) == 2 * (m * Pow2(i));
      c := R.Mul(c, c);
      e := e + e;
    }
    PowAdd(R, x, e, n);
    c := R.Mul(c, b);
  }

  /** The small powers, each a product of two earlier ones. */
  method SmallPowers<T(!new)>(R: Ring<T>, x: T) returns (t: Table<T>)
    requires IsRing(R)
    ensures t.Of(R, x)
  {
    OneMul(R, x);
    var p1 := x;
    assert p1 == Pow(R, x, 1) by { assert Pow(R, x, 1) == R.Mul(Pow(R, x, 0), x); }
    var p2 := Multiply(R, p1, p1, x, 1, 1, 2);
    var p4 := Multiply(R, p2, p2, x, 2, 2, 4);
    var p5 := Multiply(R, p1, p4, x, 1, 4, 5);
    var p7 := Multiply(R, p2, p5, x, 2, 5, 7);
    var p10 := Multiply(R, p5, p5, x, 5, 5, 10);
    var p11 := Multiply(R, p1, p10, x, 1, 10, 11);
    var p13 := Multiply(R, p2, p11, x, 2, 11, 13);
    var p15 := Multiply(R, p2, p13, x, 2, 13, 15);
    var p17 := Multiply(R, p2, p15, x, 2, 15, 17);
    var p19 := Multiply(R, p2, p17, x, 2, 17, 19);
    var p23 := Multiply(R, p4, p19, x, 4, 19, 23);
    var p33 := Multiply(R, p10, p23, x, 10, 23, 33);
    var p35 := Multiply(R, p2, p33, x, 2, 33, 35);
    var p37 := Multiply(R, p2, p35, x, 2, 35, 37);
    var p39 := Multiply(R, p2, p37, x, 2, 37, 39);
    var p43 := Multiply(R, p4, p39, x, 4, 39, 43);
    var p47 := Multiply(R, p4, p43, x, 4, 43, 47);
    var p51 := Multiply(R, p4, p47, x, 4, 47, 51);
    var p53 := Multiply(R, p2, p51, x, 2, 51, 53);
    var p57 := Multiply(R, p4, p53, x, 4, 53, 57);
    var p61 := Multiply(R, p4, p57, x, 4, 57, 61);
    var p92 := Multiply(R, p35, p57, x, 35, 57, 92);
    t := Table(p5, p7, p11, p13, p15, p17, p19, p23, p33, p35, p37, p39, p43, p47, p51, p53, p57, p61, p92);
  }

  method LeadingSteps<T(!new)>(R: Ring<T>, x: T, t: Table<T>, a: T) returns (c: T)
    requires IsRing(R) && t.Of(R, x) && a == Pow(R, x, 92)
    ensures c == Pow(R, x, 28029751342175342220584235)
  {
    c := a;
    c := ShiftMultiply(R, c, 6, t.p47, x, 92, 47, 5935);
    c := ShiftMultiply(R, c, 6, t.p33, x, 5935, 33, 379873);
    c := ShiftMultiply(R, c, 6, t.p61, x, 379873, 61, 24311933);
    c := ShiftMultiply(R, c, 6, t.p53, x, 24311933, 53, 1555963765);
    c := ShiftMultiply(R, c, 5, t.p23, x, 1555963765, 23, 49790840503);
    c := ShiftMultiply(R, c, 6, t.p23, x, 49790840503, 23, 3186613792215);
    c := ShiftMultiply(R, c, 8, t.p35, x, 3186613792215, 35, 815773130807075);
    c := ShiftMultiply(R, c, 8, t.p33, x, 815773130807075, 33, 208837921486611233);
    c := ShiftMultiply(R, c, 6, t.p51, x, 208837921486611233, 51, 13365626975143118963);
    c := ShiftMultiply(R, c, 6, t.p33, x, 13365626975143118963, 33, 855400126409159613665);
    c := ShiftMultiply(R, c, 7, t.p37, x, 855400126409159613665, 37, 109491216180372430549157);
    c := ShiftMultiply(R, c, 8, t.p43, x, 109491216180372430549157, 43, 28029751342175342220584235);
  }

  method MiddleSteps<T(!new)>(R: Ring<T>, x: T, t: Table<T>, a: T) returns (c: T)
    requires IsRing(R) && t.Of(R, x) && a == Pow(R, x, 28029751342175342220584235)
    ensures c == Pow(R, x, 8471472528733394442571408710314245118425896701171)
  {
    OneMul(R, x);
    assert x == Pow(R, x, 1) by { assert Pow(R, x, 1) == R.Mul(Pow(R, x, 0), x); }
    c := a;
    c := ShiftMultiply(R, c, 6, t.p13, x, 28029751342175342220584235, 13, 1793904085899221902117391053);
    c := ShiftMultiply(R, c, 8, t.p51, x, 1793904085899221902117391053, 51, 459239445990200806942052109619);
    c := ShiftMultiply(R, c, 6, t.p43, x, 459239445990200806942052109619, 43, 29391324543372851644291335015659);
    c := ShiftMultiply(R, c, 6, t.p39, x, 29391324543372851644291335015659, 39, 1881044770775862505234645441002215);
    c := ShiftMultiply(R, c, 3, t.p7, x, 1881044770775862505234645441002215, 7, 15048358166206900041877163528017727);
    c := ShiftMultiply(R, c, 15, t.p17, x, 15048358166206900041877163528017727, 17, 493104600390267700572230894486084878353);
    c := ShiftMultiply(R, c, 5, x, x, 493104600390267700572230894486084878353, 1, 15779347212488566418311388623554716107297);
    c := ShiftMultiply(R, c, 7, t.p61, x, 15779347212488566418311388623554716107297, 61, 2019756443198536501543857743815003661734077);
    c := ShiftMultiply(R, c, 1, t.p5, x, 2019756443198536501543857743815003661734077, 5, 4039512886397073003087715487630007323468159);
    c := ShiftMultiply(R, c, 10, t.p57, x, 4039512886397073003087715487630007323468159, 57, 4136461195670602755161820659333127499231394873);
    c := ShiftMultiply(R, c, 6, t.p39, x, 4136461195670602755161820659333127499231394873, 39, 264733516522918576330356522197320159950809271911);
    c := ShiftMultiply(R, c, 5, t.p19, x, 264733516522918576330356522197320159950809271911, 19, 8471472528733394442571408710314245118425896701171);
  }

  method TrailingSteps<T(!new)>(R: Ring<T>, x: T, t: Table<T>, a: T) returns (c: T)
    requires IsRing(R) && t.Of(R, x) && a == Pow(R, x, 8471472528733394442571408710314245118425896701171)
    ensures c == Pow(R, x, 20974350070050476191779096203274386335076221000211055129041463479975432473805)
  {
    c := a;
    c := ShiftMultiply(R, c, 8, t.p51, x, 8471472528733394442571408710314245118425896701171, 51, 2168696967355748977298280629840446750317029555499827);
    c := ShiftMultiply(R, c, 7, t.p15, x, 2168696967355748977298280629840446750317029555499827, 15, 277593211821535869094179920619577184040579783103977871);
    c := ShiftMultiply(R, c, 9, t.p51, x, 277593211821535869094179920619577184040579783103977871, 51, 142127724452626364976220119357223518228776848949236670003);
    c := ShiftMultiply(R, c, 7, t.p19, x, 142127724452626364976220119357223518228776848949236670003, 19, 18192348729936174716956175277724610333283436665502293760403);
    c := ShiftMultiply(R, c, 8, t.p51, x, 18192348729936174716956175277724610333283436665502293760403, 51, 4657241274863660727540780871097500245320559786368587202663219);
    c := ShiftMultiply(R, c, 8, t.p51, x, 4657241274863660727540780871097500245320559786368587202663219, 51, 1192253766365097146250439903000960062802063305310358323881784115);
    c := ShiftMultiply(R, c, 8, t.p51, x, 1192253766365097146250439903000960062802063305310358323881784115, 51, 305216964189464869440112615168245776077328206159451730913736733491);
    c := ShiftMultiply(R, c, 6, t.p11, x, 305216964189464869440112615168245776077328206159451730913736733491, 11, 19533885708125751644167207370767729668949005194204910778479150943435);
    c := ShiftMultiply(R, c, 8, t.p51, x, 19533885708125751644167207370767729668949005194204910778479150943435, 51, 5000674741280192420906805086916538795250945329716457159290662641519411);
    c := ShiftMultiply(R, c, 8, t.p51, x, 5000674741280192420906805086916538795250945329716457159290662641519411, 51, 1280172733767729259752142102250633931584242004407413032778409636228969267);
    c := ShiftMultiply(R, c, 8, t.p51, x, 1280172733767729259752142102250633931584242004407413032778409636228969267, 51, 327724219844538690496548378176162286485565953128297736391272866874616132403);
    c := ShiftMultiply(R, c, 6, t.p13, x, 327724219844538690496548378176162286485565953128297736391272866874616132403, 13, 20974350070050476191779096203274386335076221000211055129041463479975432473805);
  }

  /** The chain raises every element to the power ROOT. */
  method FifthRoot<T(!new)>(R: Ring<T>, x: T) returns (c: T)
    requires IsRing(R)
    ensures c == Pow(R, x, ROOT)
  {
    var t := SmallPowers(R, x);
    c := LeadingSteps(R, x, t, t.p92);
    c := MiddleSteps(R, x, t, c);
    c := TrailingSteps(R, x, t, c);
  }

  lemma {:induction false} RootExponent()
    ensures 5 * ROOT == 2 * (ScalarField.ORDER - 1) + 1
  {
  }

  lemma {:induction false} QuintIsPower<T(!new)>(R: Ring<T>, x: T)
    requires IsRing(R)
    ensures Quint(R, x) == Pow(R, x, 5)
  {
    OneMul(R, x);
    assert Pow(R, x, 1) == R.Mul(Pow(R, x, 0), x);
    assert Pow(R, x, 2) == R.Mul(Pow(R, x, 1), x);
    PowAdd(R, x, 2, 2);
    assert Pow(R, x, 5) == R.Mul(Pow(R, x, 4), x);
  }

  /** x to the q is x for every x: Fermat's little theorem when q is the order of the field. */
  ghost predicate Fermat<T(!new)>(R: Ring<T>, q: nat) {
    q > 0 && forall x: T {:trigger Use1(x)} :: Use1(x) ==> Pow(R, x, q) == x
  }

  lemma {:induction false} PowerIsIdentity<T(!new)>(R: Ring<T>, q: nat, x: T, e: nat)
    requires IsRing(R) && Fermat(R, q) && e == 2 * (q - 1) + 1
    ensures Pow(R, x, e) == x
  {
    assert Use1(x);
    var p := q - 1;
    PowAdd(R, x, p, q);
    assert p + q == e;
    assert Pow(R, x, q) == R.Mul(Pow(R, x, p), x);
  }

  /** The chain inverts the fifth power on both sides, so both are bijections. */
  lemma {:induction false} RootInvertsQuint<T(!new)>(R: Ring<T>, q: nat, x: T)
    requires IsRing(R) && Fermat(R, q) && 5 * ROOT == 2 * (q - 1) + 1
    ensures Pow(R, Quint(R, x), ROOT) == x && Quint(R, Pow(R, x, ROOT)) == x
  {
    var k := ROOT;
    QuintIsPower(R, x);
    QuintIsPower(R, Pow(R, x, k));
    PowMul(R, x, 5, k);
    PowMul(R, x, k, 5);
    PowerIsIdentity(R, q, x, 5 * k);
    PowerIsIdentity(R, q, x, k * 5);
  }
}
