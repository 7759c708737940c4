/**
 The fixed names the rule-based normaliser writes, and the facts about their
 letters that show no rule matches them again. Each name is checked in pieces
 of at most eleven characters.
 */
module CanonicalNames {
  import opened Text

  const ElectricityName := "market group for electricity, medium voltage"
  const HeatName := "market for heat, from steam, in chemical industry"
  const NaturalGasName := "market group for natural gas, high pressure"
  const WastewaterName := "market for wastewater, average"
  const Co2FossilName := "Carbon dioxide, fossil"
  const Co2BiogenicName := "Carbon dioxide, from soil or biomass stock"
  const CoolingName := "market for cooling energy"
  const ChemicalFactoryName := "market for chemical factory, organics"

  const AceticAcid := "market for acetic acid"
  const AceticAcidSuffix := ", without water, in 98% solution state"

  /** No character of `s` lower-cases to a member of `cs`. */
  predicate LacksLowerIn(s: string, cs: set<char>) {
    forall i | 0 <= i < |s| :: LowerChar(s[i]) !in cs
  }

  /** No two adjacent characters of `s` lower-case to `c`, `d`. */
  predicate LacksLowerPair(s: string, c: char, d: char) {
    forall i | 0 <= i < |s| - 1 :: !(LowerChar(s[i]) == c && LowerChar(s[i + 1]) == d)
  }

  lemma LacksLowerInConcat(a: string, b: string, cs: set<char>)
    requires LacksLowerIn(a, cs) && LacksLowerIn(b, cs)
    ensures LacksLowerIn(a + b, cs)
  {
    forall i | 0 <= i < |a + b| ensures LowerChar((a + b)[i]) !in cs {
      if i < |a| { assert (a + b)[i] == a[i]; } else { assert (a + b)[i] == b[i - |a|]; }
    }
  }

  lemma LacksLowerPairConcat(a: string, b: string, c: char, d: char)
    requires LacksLowerPair(a, c, d) && LacksLowerPair(b, c, d)
    requires a != [] && b != [] && !(LowerChar(a[|a| - 1]) == c && LowerChar(b[0]) == d)
    ensures LacksLowerPair(a + b, c, d)
  {
    var t := a + b;
    forall i | 0 <= i < |t| - 1 ensures !(LowerChar(t[i]) == c && LowerChar(t[i + 1]) == d) {
      if i + 1 < |a| {
        assert t[i] == a[i] && t[i + 1] == a[i + 1];
      } else if i + 1 == |a| {
        assert t[i] == a[|a| - 1] && t[i + 1] == b[0];
      } else {
        assert t[i] == b[i - |a|] && t[i + 1] == b[i + 1 - |a|];
      }
    }
  }

  lemma ElectricitySplit()
    ensures ElectricityName == "market grou" + "p for elect" + "ricity, med" + "ium voltage"
  {
  }

  lemma ElectricityPieces(cs: set<char>)
    requires cs == {'#', '2', 'h', 'w'}
    ensures LacksLowerIn("market grou", cs)
    ensures LacksLowerIn("p for elect", cs)
    ensures LacksLowerIn("ricity, med", cs)
    ensures LacksLowerIn("ium voltage", cs)
  {
    assert LacksLowerIn("market grou", cs);
    assert LacksLowerIn("p for elect", cs);
    assert LacksLowerIn("ricity, med", cs);
    assert LacksLowerIn("ium voltage", cs);
  }

  lemma ElectricityLacks()
    ensures LacksLowerIn(ElectricityName, {'#', '2', 'h', 'w'})
  {
    ElectricitySplit();
    ElectricityPieces({'#', '2', 'h', 'w'});
    LacksLowerInConcat("market grou", "p for elect", {'#', '2', 'h', 'w'});
    LacksLowerInConcat("market grou" + "p for elect", "ricity, med", {'#', '2', 'h', 'w'});
    LacksLowerInConcat("market grou" + "p for elect" + "ricity, med", "ium voltage", {'#', '2', 'h', 'w'});
  }

  lemma HeatSplit()
    ensures HeatName == "market for " + "heat, from " + "steam, in c" + "hemical ind" + "ustry"
  {
  }

  lemma HeatPieces(cs: set<char>)
    requires cs == {'#', '2', 'w', 'p', 'g'}
    ensures LacksLowerIn("market for ", cs)
    ensures LacksLowerIn("heat, from ", cs)
    ensures LacksLowerIn("steam, in c", cs)
    ensures LacksLowerIn("hemical ind", cs)
    ensures LacksLowerIn("ustry", cs)
  {
    assert LacksLowerIn("market for ", cs);
    assert LacksLowerIn("heat, from ", cs);
    assert LacksLowerIn("steam, in c", cs);
    assert LacksLowerIn("hemical ind", cs);
    assert LacksLowerIn("ustry", cs);
  }

  lemma HeatPiecePairs1()
    ensures LacksLowerPair("market for ", 'i', 'a')
    ensures LacksLowerPair("heat, from ", 'i', 'a')
    ensures LacksLowerPair("steam, in c", 'i', 'a')
  {
    assert LacksLowerPair("market for ", 'i', 'a');
    assert LacksLowerPair("heat, from ", 'i', 'a');
    assert LacksLowerPair("steam, in c", 'i', 'a');
  }

  lemma HeatPiecePairs2()
    ensures LacksLowerPair("hemical ind", 'i', 'a')
    ensures LacksLowerPair("ustry", 'i', 'a')
  {
    assert LacksLowerPair("hemical ind", 'i', 'a');
    assert LacksLowerPair("ustry", 'i', 'a');
  }

  lemma HeatLacks()
    ensures LacksLowerIn(HeatName, {'#', '2', 'w', 'p', 'g'})
    ensures LacksLowerPair(HeatName, 'i', 'a')
  {
    HeatSplit();
    HeatPieces({'#', '2', 'w', 'p', 'g'});
    HeatPiecePairs1();
    HeatPiecePairs2();
    LacksLowerInConcat("market for ", "heat, from ", {'#', '2', 'w', 'p', 'g'});
    LacksLowerPairConcat("market for ", "heat, from ", 'i', 'a');
    LacksLowerInConcat("market for " + "heat, from ", "steam, in c", {'#', '2', 'w', 'p', 'g'});
    LacksLowerPairConcat("market for " + "heat, from ", "steam, in c", 'i', 'a');
    LacksLowerInConcat("market for " + "heat, from " + "steam, in c", "hemical ind", {'#', '2', 'w', 'p', 'g'});
    LacksLowerPairConcat("market for " + "heat, from " + "steam, in c", "hemical ind", 'i', 'a');
    LacksLowerInConcat("market for " + "heat, from " + "steam, in c" + "hemical ind", "ustry", {'#', '2', 'w', 'p', 'g'});
    LacksLowerPairConcat("market for " + "heat, from " + "steam, in c" + "hemical ind", "ustry", 'i', 'a');
  }

  lemma NaturalGasSplit()
    ensures NaturalGasName == "market grou" + "p for natur" + "al gas, hig" + "h pressure"
  {
  }

  lemma NaturalGasPieces(cs: set<char>)
    requires cs == {'#', '2', 'w', 'c', 'd'}
    ensures LacksLowerIn("market grou", cs)
    ensures LacksLowerIn("p for natur", cs)
    ensures LacksLowerIn("al gas, hig", cs)
    ensures LacksLowerIn("h pressure", cs)
  {
    assert LacksLowerIn("market grou", cs);
    assert LacksLowerIn("p for natur", cs);
    assert LacksLowerIn("al gas, hig", cs);
    assert LacksLowerIn("h pressure", cs);
  }

  lemma NaturalGasPiecePairs1()
    ensures LacksLowerPair("market grou", 'h', 'e')
    ensures LacksLowerPair("p for natur", 'h', 'e')
    ensures LacksLowerPair("al gas, hig", 'h', 'e')
  {
    assert LacksLowerPair("market grou", 'h', 'e');
    assert LacksLowerPair("p for natur", 'h', 'e');
    assert LacksLowerPair("al gas, hig", 'h', 'e');
  }

  lemma NaturalGasPiecePairs2()
    ensures LacksLowerPair("h pressure", 'h', 'e')
  {
    assert LacksLowerPair("h pressure", 'h', 'e');
  }

  lemma NaturalGasLacks()
    ensures LacksLowerIn(NaturalGasName, {'#', '2', 'w', 'c', 'd'})
    ensures LacksLowerPair(NaturalGasName, 'h', 'e')
  {
    NaturalGasSplit();
    NaturalGasPieces({'#', '2', 'w', 'c', 'd'});
    NaturalGasPiecePairs1();
    NaturalGasPiecePairs2();
    LacksLowerInConcat("market grou", "p for natur", {'#', '2', 'w', 'c', 'd'});
    LacksLowerPairConcat("market grou", "p for natur", 'h', 'e');
    LacksLowerInConcat("market grou" + "p for natur", "al gas, hig", {'#', '2', 'w', 'c', 'd'});
    LacksLowerPairConcat("market grou" + "p for natur", "al gas, hig", 'h', 'e');
    LacksLowerInConcat("market grou" + "p for natur" + "al gas, hig", "h pressure", {'#', '2', 'w', 'c', 'd'});
    LacksLowerPairConcat("market grou" + "p for natur" + "al gas, hig", "h pressure", 'h', 'e');
  }

  lemma WastewaterSplit()
    ensures WastewaterName == "market for " + "wastewater," + " average"
  {
  }

  lemma WastewaterPieces(cs: set<char>)
    requires cs == {'#', '2', 'h'}
    ensures LacksLowerIn("market for ", cs)
    ensures LacksLowerIn("wastewater,", cs)
    ensures LacksLowerIn(" average", cs)
  {
    assert LacksLowerIn("market for ", cs);
    assert LacksLowerIn("wastewater,", cs);
    assert LacksLowerIn(" average", cs);
  }

  lemma WastewaterPiecePairs()
    ensures LacksLowerPair("market for ", 'e', ' ')
    ensures LacksLowerPair("wastewater,", 'e', ' ')
    ensures LacksLowerPair(" average", 'e', ' ')
  {
    assert LacksLowerPair("market for ", 'e', ' ');
    assert LacksLowerPair("wastewater,", 'e', ' ');
    assert LacksLowerPair(" average", 'e', ' ');
  }

  lemma WastewaterLacks()
    ensures LacksLowerIn(WastewaterName, {'#', '2', 'h'})
    ensures LacksLowerPair(WastewaterName, 'e', ' ')
  {
    WastewaterSplit();
    WastewaterPieces({'#', '2', 'h'});
    WastewaterPiecePairs();
    LacksLowerInConcat("market for ", "wastewater,", {'#', '2', 'h'});
    LacksLowerPairConcat("market for ", "wastewater,", 'e', ' ');
    LacksLowerInConcat("market for " + "wastewater,", " average", {'#', '2', 'h'});
    LacksLowerPairConcat("market for " + "wastewater,", " average", 'e', ' ');
  }

  lemma Co2FossilSplit()
    ensures Co2FossilName == "Carbon diox" + "ide, fossil"
  {
  }

  lemma Co2FossilPieces(cs: set<char>)
    requires cs == {'#', '2', 'h', 'w'}
    ensures LacksLowerIn("Carbon diox", cs)
    ensures LacksLowerIn("ide, fossil", cs)
  {
    assert LacksLowerIn("Carbon diox", cs);
    assert LacksLowerIn("ide, fossil", cs);
  }

  lemma Co2FossilLacks()
    ensures LacksLowerIn(Co2FossilName, {'#', '2', 'h', 'w'})
  {
    Co2FossilSplit();
    Co2FossilPieces({'#', '2', 'h', 'w'});
    LacksLowerInConcat("Carbon diox", "ide, fossil", {'#', '2', 'h', 'w'});
  }

  lemma Co2BiogenicSplit()
    ensures Co2BiogenicName == "Carbon diox" + "ide, from s" + "oil or biom" + "ass stock"
  {
  }

  lemma Co2BiogenicPieces(cs: set<char>)
    requires cs == {'#', '2', 'h', 'w'}
    ensures LacksLowerIn("Carbon diox", cs)
    ensures LacksLowerIn("ide, from s", cs)
    ensures LacksLowerIn("oil or biom", cs)
    ensures LacksLowerIn("ass stock", cs)
  {
    assert LacksLowerIn("Carbon diox", cs);
    assert LacksLowerIn("ide, from s", cs);
    assert LacksLowerIn("oil or biom", cs);
    assert LacksLowerIn("ass stock", cs);
  }

  lemma Co2BiogenicLacks()
    ensures LacksLowerIn(Co2BiogenicName, {'#', '2', 'h', 'w'})
  {
    Co2BiogenicSplit();
    Co2BiogenicPieces({'#', '2', 'h', 'w'});
    LacksLowerInConcat("Carbon diox", "ide, from s", {'#', '2', 'h', 'w'});
    LacksLowerInConcat("Carbon diox" + "ide, from s", "oil or biom", {'#', '2', 'h', 'w'});
    LacksLowerInConcat("Carbon diox" + "ide, from s" + "oil or biom", "ass stock", {'#', '2', 'h', 'w'});
  }

  lemma CoolingSplit()
    ensures CoolingName == "market for " + "cooling ene" + "rgy"
  {
  }

  lemma CoolingPieces(cs: set<char>)
    requires cs == {'#', '2', 'h', 'w'}
    ensures LacksLowerIn("market for ", cs)
    ensures LacksLowerIn("cooling ene", cs)
    ensures LacksLowerIn("rgy", cs)
  {
    assert LacksLowerIn("market for ", cs);
    assert LacksLowerIn("cooling ene", cs);
    assert LacksLowerIn("rgy", cs);
  }

  lemma CoolingLacks()
    ensures LacksLowerIn(CoolingName, {'#', '2', 'h', 'w'})
  {
    CoolingSplit();
    CoolingPieces({'#', '2', 'h', 'w'});
    LacksLowerInConcat("market for ", "cooling ene", {'#', '2', 'h', 'w'});
    LacksLowerInConcat("market for " + "cooling ene", "rgy", {'#', '2', 'h', 'w'});
  }

  /** The acetic-acid name and its suffix, in pieces. */
  lemma AceticAcidSplit()
    ensures AceticAcid == "market for " + "acetic acid"
    ensures AceticAcidSuffix == ", without w" + "ater, in 98" + "% solution " + "state"
  {
  }

  lemma AceticAcidNamePieces()
    ensures LacksPair("market for ", 'e', ' ') && LacksPair("acetic acid", 'e', ' ')
  {
    assert LacksPair("market for ", 'e', ' ');
    assert LacksPair("acetic acid", 'e', ' ');
  }

  lemma AceticAcidSuffixPieces1()
    ensures LacksPair(", without w", 'e', ' ') && LacksChar(", without w", 'm')
    ensures LacksPair("ater, in 98", 'e', ' ') && LacksChar("ater, in 98", 'm')
  {
    assert LacksPair(", without w", 'e', ' ');
    assert LacksChar(", without w", 'm');
    assert LacksPair("ater, in 98", 'e', ' ');
    assert LacksChar("ater, in 98", 'm');
  }

  lemma AceticAcidSuffixPieces2()
    ensures LacksPair("% solution ", 'e', ' ') && LacksChar("% solution ", 'm')
    ensures LacksPair("state", 'e', ' ') && LacksChar("state", 'm')
  {
    assert LacksPair("% solution ", 'e', ' ');
    assert LacksChar("% solution ", 'm');
    assert LacksPair("state", 'e', ' ');
    assert LacksChar("state", 'm');
  }

  /** Neither the acetic-acid name nor its 3.10 form holds "e ", and the suffix holds no 'm'. */
  lemma AceticAcidLacks()
    ensures LacksPair(AceticAcid, 'e', ' ')
    ensures LacksPair(AceticAcid + AceticAcidSuffix, 'e', ' ')
    ensures LacksChar(AceticAcidSuffix, 'm') && AceticAcid[0] == 'm'
  {
    AceticAcidSplit();
    AceticAcidNamePieces();
    AceticAcidSuffixPieces1();
    AceticAcidSuffixPieces2();
    LacksPairConcat("market for ", "acetic acid", 'e', ' ');
    var x := ", without w";
    LacksPairConcat(x, "ater, in 98", 'e', ' ');
    LacksCharConcat(x, "ater, in 98", 'm');
    x := x + "ater, in 98";
    LacksPairConcat(x, "% solution ", 'e', ' ');
    LacksCharConcat(x, "% solution ", 'm');
    x := x + "% solution ";
    LacksPairConcat(x, "state", 'e', ' ');
    LacksCharConcat(x, "state", 'm');
    LacksPairConcat(AceticAcid, AceticAcidSuffix, 'e', ' ');
  }
}
