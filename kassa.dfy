/** The checkout (kassa): scanned articles become receipt lines (BonRegel),
    and the total runs the configured discount rules over those lines before
    summing their prices. The one rule, "Nivea second free", sorts the Nivea
    lines by catalogue price and sets the cheaper half of them to 0 in place.
    Prices are integers (cents). */
module Kassa {

  /** A catalogue item; immutable. */
  datatype Artikel = Artikel(prijs: int, artikelgroep: string, sku: string, merk: string, omschrijving: string)

  /** ArtikelRepository.findArtikel: the catalogue lookup, given to the kassa as a function. */
  type ArtikelRepository = string -> Artikel

  const NIVEA: string := "Nivea"

  /** A receipt line: the scanned article and its current price, which a discount rule may lower. */
  class BonRegel {
    const artikel: Artikel
    var prijs: int

    /** A new line starts at the article's catalogue price. */
    constructor (artikel: Artikel)
      ensures this.artikel == artikel && prijs == artikel.prijs
    {
      this.artikel := artikel;
      prijs := artikel.prijs;
    }

    method SetPrijs(p: int)
      modifies this
      ensures prijs == p
    {
      prijs := p;
    }

    /** compareTo: lines order by the catalogue price of their article, not by their current price. */
    function CompareTo(o: BonRegel): (c: int)
      ensures c < 0 <==> artikel.prijs < o.artikel.prijs
      ensures c == 0 <==> artikel.prijs == o.artikel.prijs
      ensures -1 <= c <= 1
    {
      if artikel.prijs < o.artikel.prijs then -1
      else if artikel.prijs == o.artikel.prijs then 0
      else 1
    }
  }

  /** compareTo is a total preorder on catalogue prices: antisymmetric in sign and transitive. */
  lemma CompareToIsConsistent(a: BonRegel, b: BonRegel, c: BonRegel)
    ensures a.CompareTo(b) == -b.CompareTo(a)
    ensures a.CompareTo(b) <= 0 <==> a.artikel.prijs <= b.artikel.prijs
    ensures a.CompareTo(b) <= 0 && b.CompareTo(c) <= 0 ==> a.CompareTo(c) <= 0
  {
  }

  /** Each line object occurs at most once. */
  ghost predicate Distinct(s: seq<BonRegel>) {
    forall r | r in s :: multiset(s)[r] == 1
  }

  /** Ascending by catalogue price. */
  ghost predicate Sorted(s: seq<BonRegel>) {
    forall i, j :: 0 <= i < j < |s| ==> s[i].artikel.prijs <= s[j].artikel.prijs
  }

  predicate IsNivea(r: BonRegel) {
    r.artikel.merk == NIVEA
  }

  // ---------------------------------------------------------------------------
  // The expression-style part of the rule: filter the Nivea lines, then sort them

  /** The Nivea lines of s, in their order. */
  function Niveas(s: seq<BonRegel>): (r: seq<BonRegel>)
    ensures forall x | x in r :: x in s && IsNivea(x)
    ensures forall x | x in s && IsNivea(x) :: x in r
    ensures multiset(r) <= multiset(s)
  {
    if s == [] then []
    else
      assert s == [s[0]] + s[1..];
      if IsNivea(s[0]) then [s[0]] + Niveas(s[1..]) else Niveas(s[1..])
  }

  /** One step of the stable sort: x goes before the first line that does not cost less. */
  function Insert(x: BonRegel, s: seq<BonRegel>): (r: seq<BonRegel>)
    ensures multiset(r) == multiset(s) + multiset{x}
    ensures Sorted(s) ==> Sorted(r)
  {
    if s == [] || x.CompareTo(s[0]) <= 0 then
      [x] + s
    else
      var t := Insert(x, s[1..]);
      assert s == [s[0]] + s[1..];
      InsertAfterSmaller(s[0], x, s[1..], t);
      [s[0]] + t
  }

  lemma InsertAfterSmaller(y: BonRegel, x: BonRegel, s: seq<BonRegel>, t: seq<BonRegel>)
    requires y.artikel.prijs < x.artikel.prijs
    requires multiset(t) == multiset(s) + multiset{x}
    requires Sorted(s) ==> Sorted(t)
    ensures Sorted([y] + s) ==> Sorted([y] + t)
  {
    var ys, yt := [y] + s, [y] + t;
    if Sorted(ys) {
      forall i, j | 0 <= i < j < |s|
        ensures s[i].artikel.prijs <= s[j].artikel.prijs
      {
        assert ys[i + 1] == s[i] && ys[j + 1] == s[j];
      }
      forall k | 0 <= k < |t|
        ensures y.artikel.prijs <= t[k].artikel.prijs
      {
        assert t[k] in multiset(t);
        if t[k] != x {
          assert t[k] in multiset(s);
          var j :| 0 <= j < |s| && s[j] == t[k];
          assert ys[0] == y && ys[j + 1] == s[j];
        }
      }
      forall i, j | 0 <= i < j < |yt|
        ensures yt[i].artikel.prijs <= yt[j].artikel.prijs
      {
        assert yt[j] == t[j - 1];
        if i > 0 {
          assert yt[i] == t[i - 1];
        }
      }
    }
  }

  /** sorted(): a stable sort by compareTo. */
  function SortByPrice(s: seq<BonRegel>): (r: seq<BonRegel>)
    ensures multiset(r) == multiset(s)
    ensures Sorted(r)
  {
    if s == [] then []
    else
      assert s == [s[0]] + s[1..];
      Insert(s[0], SortByPrice(s[1..]))
  }

  /** The lines with a given catalogue price, in their order. */
  function WithPrice(s: seq<BonRegel>, p: int): seq<BonRegel> {
    if s == [] then []
    else if s[0].artikel.prijs == p then [s[0]] + WithPrice(s[1..], p)
    else WithPrice(s[1..], p)
  }

  lemma {:induction false} InsertKeepsOrderOfEquals(x: BonRegel, s: seq<BonRegel>, p: int)
    requires Sorted(s)
    ensures WithPrice(Insert(x, s), p) == (if x.artikel.prijs == p then [x] else []) + WithPrice(s, p)
  {
    if s == [] || x.CompareTo(s[0]) <= 0 {
      assert ([x] + s)[1..] == s;
    } else {
      var t := Insert(x, s[1..]);
      assert ([s[0]] + t)[1..] == t;
      InsertKeepsOrderOfEquals(x, s[1..], p);
    }
  }

  /** The sort is stable: lines of equal catalogue price keep their relative order. */
  lemma {:induction false} SortIsStable(s: seq<BonRegel>, p: int)
    ensures WithPrice(SortByPrice(s), p) == WithPrice(s, p)
  {
    if s != [] {
      SortIsStable(s[1..], p);
      InsertKeepsOrderOfEquals(s[0], SortByPrice(s[1..]), p);
    }
  }

  /** The filter keeps the Nivea lines in their order: among the lines of any
      one catalogue price, the Nivea ones come out in scan order. */
  lemma {:induction false} NiveasKeepsOrder(s: seq<BonRegel>, p: int)
    ensures WithPrice(Niveas(s), p) == Niveas(WithPrice(s, p))
  {
    if s != [] {
      NiveasKeepsOrder(s[1..], p);
      var x := s[0];
      assert s == [x] + s[1..];
      if IsNivea(x) {
        assert ([x] + Niveas(s[1..]))[1..] == Niveas(s[1..]);
      }
      if x.artikel.prijs == p {
        assert ([x] + WithPrice(s[1..], p))[1..] == WithPrice(s[1..], p);
      }
    }
  }

  /** The rule sees equally priced Nivea lines in the order they were scanned,
      so of several such lines the ones scanned first are the ones made free. */
  lemma NiveasSortedInScanOrder(regels: seq<BonRegel>, p: int)
    ensures WithPrice(SortByPrice(Niveas(regels)), p) == Niveas(WithPrice(regels, p))
  {
    SortIsStable(Niveas(regels), p);
    NiveasKeepsOrder(regels, p);
  }

  /** The filter appends a scanned Nivea line at its end and ignores any other line:
      it keeps every Nivea line, in scan order. */
  lemma {:induction false} NiveasSnoc(s: seq<BonRegel>, x: BonRegel)
    ensures Niveas(s + [x]) == Niveas(s) + (if IsNivea(x) then [x] else [])
    decreases |s|
  {
    if s == [] {
      assert [] + [x] == [x];
      assert [x][1..] == [];
    } else {
      var y := s[0];
      assert (s + [x])[0] == y && (s + [x])[1..] == s[1..] + [x];
      NiveasSnoc(s[1..], x);
    }
  }

  /** a occurs in s at an earlier position than b. */
  ghost predicate Before(s: seq<BonRegel>, a: BonRegel, b: BonRegel) {
    s != [] && ((s[0] == a && b in s[1..]) || Before(s[1..], a, b))
  }

  lemma {:induction false} BeforeAt(s: seq<BonRegel>, i: int, j: int)
    requires 0 <= i < j < |s|
    ensures Before(s, s[i], s[j])
    decreases i
  {
    if i == 0 {
      assert s[j] == s[1..][j - 1];
    } else {
      BeforeAt(s[1..], i - 1, j - 1);
    }
  }

  lemma {:induction false} WithPriceMember(s: seq<BonRegel>, p: int, x: BonRegel)
    ensures x in WithPrice(s, p) <==> x in s && x.artikel.prijs == p
  {
    if s != [] {
      WithPriceMember(s[1..], p, x);
      assert s == [s[0]] + s[1..];
    }
  }

  lemma {:induction false} WithPriceKeepsBefore(s: seq<BonRegel>, p: int, a: BonRegel, b: BonRegel)
    requires Before(s, a, b) && a.artikel.prijs == p && b.artikel.prijs == p
    ensures Before(WithPrice(s, p), a, b)
  {
    var w := WithPrice(s[1..], p);
    if s[0] == a && b in s[1..] {
      WithPriceMember(s[1..], p, b);
      assert ([a] + w)[1..] == w;
    } else {
      WithPriceKeepsBefore(s[1..], p, a, b);
      if s[0].artikel.prijs == p {
        assert ([s[0]] + w)[1..] == w;
      }
    }
  }

  lemma {:induction false} NiveasKeepBefore(s: seq<BonRegel>, a: BonRegel, b: BonRegel)
    requires Before(s, a, b) && IsNivea(a) && IsNivea(b)
    ensures Before(Niveas(s), a, b)
  {
    var n := Niveas(s[1..]);
    if s[0] == a && b in s[1..] {
      assert ([a] + n)[1..] == n;
    } else {
      NiveasKeepBefore(s[1..], a, b);
      if IsNivea(s[0]) {
        assert ([s[0]] + n)[1..] == n;
      }
    }
  }

  lemma {:induction false} BeforeInWithPrice(s: seq<BonRegel>, p: int, a: BonRegel, b: BonRegel)
    requires Before(WithPrice(s, p), a, b)
    ensures Before(s, a, b)
  {
    var w := WithPrice(s[1..], p);
    if s[0].artikel.prijs == p {
      assert ([s[0]] + w)[1..] == w;
      if s[0] == a && b in w {
        WithPriceMember(s[1..], p, b);
      } else {
        BeforeInWithPrice(s[1..], p, a, b);
      }
    } else {
      BeforeInWithPrice(s[1..], p, a, b);
    }
  }

  lemma {:induction false} BeforeInPrefix(s: seq<BonRegel>, a: BonRegel, b: BonRegel, h: int)
    requires Distinct(s) && Before(s, a, b) && 0 <= h <= |s| && b in s[..h]
    ensures a in s[..h]
  {
    DistinctTail(s);
    if s[0] == a {
      assert a == s[..h][0];
    } else {
      assert Before(s[1..], a, b);
      BeforeHasLater(s[1..], a, b);
      assert b != s[0];
      assert b in s[1..][..h - 1] by {
        assert s[..h] == [s[0]] + s[1..][..h - 1];
      }
      BeforeInPrefix(s[1..], a, b, h - 1);
      assert s[1..][..h - 1] == s[1..h];
    }
  }

  lemma {:induction false} BeforeHasLater(s: seq<BonRegel>, a: BonRegel, b: BonRegel)
    requires Before(s, a, b)
    ensures b in s[1..]
  {
    if !(s[0] == a && b in s[1..]) {
      BeforeHasLater(s[1..], a, b);
    }
  }

  lemma SortedNiveasAreDistinct(regels: seq<BonRegel>)
    requires Distinct(regels)
    ensures Distinct(SortByPrice(Niveas(regels)))
  {
    var sorted := SortByPrice(Niveas(regels));
    forall y | y in sorted
      ensures multiset(sorted)[y] == 1
    {
      assert y in multiset(Niveas(regels));
    }
  }

  /** Of two equally priced Nivea lines, the later scanned is only made free when
      the earlier scanned is free too. */
  lemma GratisTakesEarliest(regels: seq<BonRegel>, i: int, j: int)
    requires Distinct(regels) && 0 <= i < j < |regels|
    requires IsNivea(regels[i]) && IsNivea(regels[j])
    requires regels[i].artikel.prijs == regels[j].artikel.prijs
    ensures regels[j] in Gratis(regels) ==> regels[i] in Gratis(regels)
  {
    var a, b, p := regels[i], regels[j], regels[i].artikel.prijs;
    var sorted := SortByPrice(Niveas(regels));
    BeforeAt(regels, i, j);
    WithPriceKeepsBefore(regels, p, a, b);
    NiveasKeepBefore(WithPrice(regels, p), a, b);
    NiveasSortedInScanOrder(regels, p);
    BeforeInWithPrice(sorted, p, a, b);
    SortedNiveasAreDistinct(regels);
    if b in Gratis(regels) {
      BeforeInPrefix(sorted, a, b, |sorted| / 2);
    }
  }

  /** A line dearer than every line of a list is inserted at its end. */
  lemma {:induction false} InsertLast(x: BonRegel, s: seq<BonRegel>)
    requires forall y | y in s :: y.artikel.prijs < x.artikel.prijs
    ensures Insert(x, s) == s + [x]
  {
    if s != [] {
      InsertLast(x, s[1..]);
      assert s == [s[0]] + s[1..];
    }
  }

  lemma SortedTail(s: seq<BonRegel>)
    requires s != [] && Sorted(s)
    ensures Sorted(s[1..])
  {
    forall i, j | 0 <= i < j < |s| - 1
      ensures s[1..][i].artikel.prijs <= s[1..][j].artikel.prijs
    {
      assert s[1..][i] == s[i + 1] && s[1..][j] == s[j + 1];
    }
  }

  lemma InsertFirst(x: BonRegel, t: seq<BonRegel>)
    requires t == [] || x.artikel.prijs <= t[0].artikel.prijs
    ensures Insert(x, t) == [x] + t
  {
  }

  /** Sorting a list that is already in order changes nothing. */
  lemma {:induction false} SortOfSorted(s: seq<BonRegel>)
    requires Sorted(s)
    ensures SortByPrice(s) == s
  {
    if s != [] {
      SortedTail(s);
      SortOfSorted(s[1..]);
      assert |s| > 1 ==> s[1..][0] == s[1];
      InsertFirst(s[0], s[1..]);
      assert s == [s[0]] + s[1..];
    }
  }

  /** Sorting twice is sorting once. */
  lemma SortIsIdempotent(s: seq<BonRegel>)
    ensures SortByPrice(SortByPrice(s)) == SortByPrice(s)
  {
    SortOfSorted(SortByPrice(s));
  }

  // ---------------------------------------------------------------------------
  // NiveaTweedeGratisRegel

  /** The lines the Nivea rule sets to 0: the first half (rounded down) of the
      Nivea lines sorted by catalogue price. */
  function Gratis(regels: seq<BonRegel>): (gratis: seq<BonRegel>)
    ensures |gratis| == |Niveas(regels)| / 2
  {
    var niveas := SortByPrice(Niveas(regels));
    assert |niveas| == |Niveas(regels)| by {
      assert |multiset(niveas)| == |multiset(Niveas(regels))|;
    }
    niveas[..|niveas| / 2]
  }

  /** The rule gives away exactly half of the Nivea lines (rounded down), and
      they are the cheapest ones: none of them costs more than a Nivea line
      that is not free. */
  lemma GratisIsCheapestHalf(regels: seq<BonRegel>)
    ensures |Gratis(regels)| == |Niveas(regels)| / 2
    ensures forall x :: x in Gratis(regels) ==> x in regels && IsNivea(x)
    ensures forall x, y :: x in Gratis(regels) && y in Niveas(regels) && y !in Gratis(regels) ==>
                             x.artikel.prijs <= y.artikel.prijs
  {
    var sorted := SortByPrice(Niveas(regels));
    var h := |sorted| / 2;
    assert |sorted| == |Niveas(regels)| by {
      assert |multiset(sorted)| == |multiset(Niveas(regels))|;
    }
    forall x | x in Gratis(regels)
      ensures x in regels && IsNivea(x)
    {
      assert x in multiset(sorted);
    }
    forall x, y | x in Gratis(regels) && y in Niveas(regels) && y !in Gratis(regels)
      ensures x.artikel.prijs <= y.artikel.prijs
    {
      assert y in multiset(Niveas(regels));
      var i :| 0 <= i < h && sorted[i] == x;
      var j :| 0 <= j < |sorted| && sorted[j] == y;
      assert forall k :: 0 <= k < h ==> sorted[k] in sorted[..h];
    }
  }

  /** Lines are distinct objects, so half of the Nivea lines means that many different lines. */
  lemma GratisIsDistinct(regels: seq<BonRegel>)
    requires Distinct(regels)
    ensures Distinct(Gratis(regels))
  {
    var sorted := SortByPrice(Niveas(regels));
    var h := |sorted| / 2;
    SortedNiveasAreDistinct(regels);
    assert sorted == sorted[..h] + sorted[h..];
    assert multiset(sorted[..h]) <= multiset(sorted);
    forall y | y in sorted[..h]
      ensures multiset(sorted[..h])[y] == 1
    {
      assert y in sorted;
    }
  }

  /** With fewer than two Nivea lines nothing is free. */
  lemma NoPairNoDiscount(regels: seq<BonRegel>)
    requires |Niveas(regels)| < 2
    ensures Gratis(regels) == []
  {
  }

  /** geefKorting: sets the first half of the sorted lines to price 0, in place. */
  method GeefKorting(sorted: seq<BonRegel>)
    modifies set r | r in sorted
    ensures forall r :: r in sorted ==> r.prijs == if r in sorted[..|sorted| / 2] then 0 else old(r.prijs)
  {
    var aantal := |sorted| / 2;
    for i := 0 to aantal
      invariant forall r :: r in sorted ==> r.prijs == if r in sorted[..i] then 0 else old(r.prijs)
    {
      assert sorted[..i + 1] == sorted[..i] + [sorted[i]];
      sorted[i].SetPrijs(0);
    }
  }

  /** The kinds of discount rule (KortingsRegel); the kassa runs a list of them in order. */
  datatype KortingsRegel = NiveaTweedeGratisRegel

  /** KortingsRegel.korting: returns the flat amount to subtract and the lines
      the rule considered. For NiveaTweedeGratisRegel the flat amount is 0, the
      lines are the Nivea lines sorted by catalogue price, and the cheaper half
      of them have been set to 0 in place. */
  method Korting(regel: KortingsRegel, regels: seq<BonRegel>) returns (bedrag: int, niveas: seq<BonRegel>)
    modifies set r | r in regels
    ensures bedrag == 0
    ensures niveas == SortByPrice(Niveas(regels))
    ensures forall r :: r in regels ==> r.prijs == if r in Gratis(regels) then 0 else old(r.prijs)
  {
    match regel
    case NiveaTweedeGratisRegel =>
      niveas := SortByPrice(Niveas(regels));
      forall r | r in niveas
        ensures r in regels
      {
        assert r in multiset(niveas);
      }
      GeefKorting(niveas);
      bedrag := 0;
  }

  // ---------------------------------------------------------------------------
  // KassaImpl

  /** The current prices of the lines, in order. */
  function Prijzen(s: seq<BonRegel>): (p: seq<int>)
    reads set r | r in s
    ensures |p| == |s|
    ensures forall i :: 0 <= i < |s| ==> p[i] == s[i].prijs
  {
    if s == [] then [] else Prijzen(s[..|s| - 1]) + [s[|s| - 1].prijs]
  }

  function Sum(ps: seq<int>): (total: int)
    ensures (forall i | 0 <= i < |ps| :: ps[i] >= 0) ==> total >= 0
  {
    if ps == [] then 0 else Sum(ps[..|ps| - 1]) + ps[|ps| - 1]
  }

  class KassaImpl {
    const kortingsRegels: seq<KortingsRegel>
    const repository: ArtikelRepository
    var korting: int
    var regels: seq<BonRegel>

    /** What holds between calls: every line is a different object, its price
        is its catalogue price or 0, and no flat discount has been taken. */
    ghost predicate Valid()
      reads this, set r | r in regels
    {
      && Distinct(regels)
      && (forall r :: r in regels ==> r.prijs == r.artikel.prijs || r.prijs == 0)
      && korting == 0
    }

    constructor (kortingsRegels: seq<KortingsRegel>, repository: ArtikelRepository)
      ensures Valid()
      ensures this.kortingsRegels == kortingsRegels && this.repository == repository
      ensures regels == [] && korting == 0
    {
      this.kortingsRegels := kortingsRegels;
      this.repository := repository;
      korting := 0;
      regels := [];
    }

    /** scan: looks the article up and appends one new line for it at the end. */
    method Scan(sku: string)
      requires Valid()
      modifies this
      ensures Valid()
      ensures |regels| == |old(regels)| + 1 && regels[..|old(regels)|] == old(regels)
      ensures fresh(regels[|regels| - 1])
      ensures regels[|regels| - 1].artikel == repository(sku)
      ensures regels[|regels| - 1].prijs == repository(sku).prijs
      ensures korting == old(korting)
    {
      var regel := new BonRegel(repository(sku));
      regels := regels + [regel];
      assert regels[..|old(regels)|] == old(regels);
    }

    /** pasKortingRegelsToe: runs every rule in order over all lines and adds
        the flat amounts they return to korting. Each rule is the Nivea rule, so
        after at least one rule the lines in Gratis(regels) cost 0 and no flat
        amount is added. */
    method PasKortingRegelsToe()
      requires Valid()
      modifies this, set r | r in regels
      ensures Valid()
      ensures regels == old(regels) && korting == old(korting)
      ensures forall r :: r in regels ==>
                r.prijs == if kortingsRegels != [] && r in Gratis(regels) then 0 else old(r.prijs)
    {
      var kortingbedragje := 0;
      for k := 0 to |kortingsRegels|
        invariant regels == old(regels) && korting == old(korting)
        invariant kortingbedragje == 0
        invariant forall r :: r in regels ==>
                    r.prijs == if k > 0 && r in Gratis(regels) then 0 else old(r.prijs)
      {
        var bedrag, _ := Korting(kortingsRegels[k], regels);
        kortingbedragje := kortingbedragje + bedrag;
      }
      korting := korting + kortingbedragje;
    }

    /** The summing loop of totaal: adds up the current line prices. */
    method Subtotaal() returns (totaal: int)
      ensures totaal == Sum(Prijzen(regels))
    {
      totaal := 0;
      for i := 0 to |regels|
        invariant totaal == Sum(Prijzen(regels[..i]))
      {
        assert regels[..i + 1][..i] == regels[..i];
        assert Prijzen(regels[..i + 1])[..i] == Prijzen(regels[..i]);
        totaal := totaal + regels[i].prijs;
      }
      assert regels[..|regels|] == regels;
    }

    /** totaal: applies the rules, then returns the sum of the line prices minus korting. */
    method Totaal() returns (t: int)
      requires Valid()
      modifies this, set r | r in regels
      ensures Valid()
      ensures regels == old(regels) && korting == old(korting)
      ensures forall r :: r in regels ==>
                r.prijs == if kortingsRegels != [] && r in Gratis(regels) then 0 else old(r.prijs)
      ensures t == Sum(Prijzen(regels)) - korting
    {
      PasKortingRegelsToe();
      var totaal := Subtotaal();
      t := totaal - korting;
    }

    /** totaal as evidently intended: every line is first put back at its
        catalogue price, so the rules decide the prices afresh from the current
        lines and a line freed by an earlier call is not left at 0. */
    method TotaalHerberekend() returns (t: int)
      requires Valid()
      modifies this, set r | r in regels
      ensures Valid()
      ensures regels == old(regels) && korting == old(korting)
      ensures forall r :: r in regels ==>
                r.prijs == if kortingsRegels != [] && r in Gratis(regels) then 0 else r.artikel.prijs
      ensures t == Sum(Prijzen(regels)) - korting
    {
      for i := 0 to |regels|
        invariant regels == old(regels) && korting == old(korting)
        invariant Valid()
        invariant forall r :: r in regels ==> r.prijs == if r in regels[..i] then r.artikel.prijs else old(r.prijs)
      {
        assert regels[..i + 1] == regels[..i] + [regels[i]];
        regels[i].SetPrijs(regels[i].artikel.prijs);
      }
      assert regels[..|regels|] == regels;
      t := Totaal();
    }
  }

  /** Calling totaal twice without a scan in between gives the same value:
      the second run of the rules zeroes the same lines again. */
  method TotaalTwice(kassa: KassaImpl) returns (t1: int, t2: int)
    requires kassa.Valid()
    modifies kassa, set r | r in kassa.regels
    ensures t1 == t2
  {
    t1 := kassa.Totaal();
    ghost var na1 := Prijzen(kassa.regels);
    t2 := kassa.Totaal();
    assert Prijzen(kassa.regels) == na1;
  }

  /** Every line holds its article's price or 0, so with non-negative
      catalogue prices every line price lies between 0 and its catalogue price. */
  lemma PricesStayInRange(kassa: KassaImpl)
    requires kassa.Valid()
    ensures forall r :: r in kassa.regels && r.artikel.prijs >= 0 ==> 0 <= r.prijs <= r.artikel.prijs
  {
  }

  // ---------------------------------------------------------------------------
  // The order of scanning does not change the total

  function Map<A, B>(f: A -> B, s: seq<A>): seq<B> {
    seq(|s|, i requires 0 <= i < |s| => f(s[i]))
  }

  lemma MapAt<A, B>(f: A -> B, s: seq<A>, i: int)
    requires 0 <= i < |s|
    ensures |Map(f, s)| == |s| && Map(f, s)[i] == f(s[i])
  {
  }

  lemma MapCons<A, B>(f: A -> B, x: A, s: seq<A>)
    ensures Map(f, [x] + s) == [f(x)] + Map(f, s)
  {
  }

  /** Taking out the element at index k leaves the rest of the multiset. */
  lemma RemoveAt<A>(t: seq<A>, k: int)
    requires 0 <= k < |t|
    ensures t == t[..k] + [t[k]] + t[k + 1..]
    ensures multiset(t) == multiset(t[..k] + t[k + 1..]) + multiset{t[k]}
  {
    assert t == t[..k] + [t[k]] + t[k + 1..];
  }

  lemma HeadAndTail<A>(s: seq<A>)
    requires s != []
    ensures s == [s[0]] + s[1..]
    ensures multiset(s) == multiset{s[0]} + multiset(s[1..])
  {
    assert s == [s[0]] + s[1..];
  }

  function ArtikelVan(r: BonRegel): Artikel {
    r.artikel
  }

  function PrijsVan(a: Artikel): int {
    a.prijs
  }

  function CatalogusPrijs(r: BonRegel): int {
    r.artikel.prijs
  }

  /** The articles scanned, counted with multiplicity and regardless of order. */
  ghost function Gescand(s: seq<BonRegel>): multiset<Artikel> {
    multiset(Map(ArtikelVan, s))
  }

  /** Mapping a function over two permutations of each other gives two permutations of each other. */
  lemma {:induction false} MapKeepsPermutation<A, B>(f: A -> B, s: seq<A>, t: seq<A>)
    requires multiset(s) == multiset(t)
    ensures multiset(Map(f, s)) == multiset(Map(f, t))
    decreases |s|
  {
    if s == [] {
      assert |t| == |multiset(t)| == 0;
    } else {
      var x := s[0];
      assert x in multiset(t);
      var k :| 0 <= k < |t| && t[k] == x;
      var t' := t[..k] + t[k + 1..];
      HeadAndTail(s);
      RemoveAt(t, k);
      assert multiset(s[1..]) == multiset(s) - multiset{x};
      assert multiset(t') == multiset(t) - multiset{x};
      MapKeepsPermutation(f, s[1..], t');
      MapCons(f, x, s[1..]);
      MapRemoveAt(f, t, k);
    }
  }

  lemma MapAppend<A, B>(f: A -> B, a: seq<A>, b: seq<A>)
    ensures Map(f, a + b) == Map(f, a) + Map(f, b)
  {
  }

  /** Mapping over a list counts the image of each element once. */
  lemma MapRemoveAt<A, B>(f: A -> B, t: seq<A>, k: int)
    requires 0 <= k < |t|
    ensures multiset(Map(f, t)) == multiset(Map(f, t[..k] + t[k + 1..])) + multiset{f(t[k])}
  {
    var l, r := t[..k], t[k + 1..];
    assert t == l + [t[k]] + r;
    MapAppend(f, l + [t[k]], r);
    MapAppend(f, l, [t[k]]);
    MapAppend(f, l, r);
  }

  lemma {:induction false} SumAppend(a: seq<int>, b: seq<int>)
    ensures Sum(a + b) == Sum(a) + Sum(b)
    decreases |b|
  {
    if b != [] {
      SumAppend(a, b[..|b| - 1]);
      assert (a + b)[..|a + b| - 1] == a + b[..|b| - 1];
    } else {
      assert a + b == a;
    }
  }

  /** The sum does not depend on the order of its terms. */
  lemma {:induction false} SumKeepsPermutation(s: seq<int>, t: seq<int>)
    requires multiset(s) == multiset(t)
    ensures Sum(s) == Sum(t)
    decreases |s|
  {
    if s == [] {
      assert |t| == |multiset(t)| == 0;
    } else {
      var x := s[0];
      assert x in multiset(t);
      var k :| 0 <= k < |t| && t[k] == x;
      var t' := t[..k] + t[k + 1..];
      HeadAndTail(s);
      RemoveAt(t, k);
      assert multiset(s[1..]) == multiset(s) - multiset{x};
      assert multiset(t') == multiset(t) - multiset{x};
      SumKeepsPermutation(s[1..], t');
      SumAppend([x], s[1..]);
      SumAppend(t[..k] + [x], t[k + 1..]);
      SumAppend(t[..k], [x]);
      SumAppend(t[..k], t[k + 1..]);
      assert Sum([x]) == x by {
        assert [x][..0] == [];
      }
    }
  }

  ghost predicate Ascending(s: seq<int>) {
    forall i, j | 0 <= i < j < |s| :: s[i] <= s[j]
  }

  lemma AscendingTail(s: seq<int>)
    requires s != [] && Ascending(s)
    ensures Ascending(s[1..])
  {
    forall i, j | 0 <= i < j < |s| - 1
      ensures s[1..][i] <= s[1..][j]
    {
      assert s[1..][i] == s[i + 1] && s[1..][j] == s[j + 1];
    }
  }

  /** Two ascending lists with the same elements are equal. */
  lemma {:induction false} AscendingIsUnique(s: seq<int>, t: seq<int>)
    requires Ascending(s) && Ascending(t) && multiset(s) == multiset(t)
    ensures s == t
    decreases |s|
  {
    if s == [] {
      assert |t| == |multiset(t)| == 0;
    } else {
      assert s[0] in multiset(t);
      assert t != [] && t[0] in multiset(s);
      assert s[0] == t[0];
      HeadAndTail(s);
      HeadAndTail(t);
      assert multiset(s[1..]) == multiset(s) - multiset{s[0]};
      assert multiset(t[1..]) == multiset(t) - multiset{t[0]};
      AscendingTail(s);
      AscendingTail(t);
      AscendingIsUnique(s[1..], t[1..]);
    }
  }

  /** Each Nivea article is filtered as often as it was scanned, any other article never. */
  lemma {:induction false} NiveaCount(s: seq<BonRegel>, x: Artikel)
    ensures multiset(Map(ArtikelVan, Niveas(s)))[x] == if x.merk == NIVEA then multiset(Map(ArtikelVan, s))[x] else 0
  {
    if s != [] {
      var y, rest := s[0], s[1..];
      NiveaCount(rest, x);
      assert s == [y] + rest;
      assert Niveas(s) == if IsNivea(y) then [y] + Niveas(rest) else Niveas(rest);
      MapCons(ArtikelVan, y, rest);
      MapCons(ArtikelVan, y, Niveas(rest));
    }
  }

  /** Receipts with the same articles hold the same Nivea articles. */
  lemma NiveasAreOrderFree(s: seq<BonRegel>, t: seq<BonRegel>)
    requires Gescand(s) == Gescand(t)
    ensures Gescand(Niveas(s)) == Gescand(Niveas(t))
  {
    forall x
      ensures Gescand(Niveas(s))[x] == Gescand(Niveas(t))[x]
    {
      NiveaCount(s, x);
      NiveaCount(t, x);
    }
  }

  lemma MapPrefix<A, B>(f: A -> B, s: seq<A>, n: int)
    requires 0 <= n <= |s|
    ensures Map(f, s[..n]) == Map(f, s)[..n]
  {
  }

  lemma CatalogusPrijsOfArtikel(s: seq<BonRegel>)
    ensures Map(CatalogusPrijs, s) == Map(PrijsVan, Map(ArtikelVan, s))
  {
    var a := Map(ArtikelVan, s);
    assert |a| == |s|;
    forall i | 0 <= i < |s|
      ensures Map(CatalogusPrijs, s)[i] == Map(PrijsVan, a)[i]
    {
      MapAt(CatalogusPrijs, s, i);
      MapAt(ArtikelVan, s, i);
      MapAt(PrijsVan, a, i);
    }
  }

  lemma SortedIsAscending(s: seq<BonRegel>)
    requires Sorted(s)
    ensures Ascending(Map(CatalogusPrijs, s))
  {
    var p := Map(CatalogusPrijs, s);
    forall i, j | 0 <= i < j < |p|
      ensures p[i] <= p[j]
    {
      assert p[i] == CatalogusPrijs(s[i]) && p[j] == CatalogusPrijs(s[j]);
    }
  }

  /** Sorting keeps the articles of a list. */
  lemma SortKeepsArticles(s: seq<BonRegel>)
    ensures Gescand(SortByPrice(s)) == Gescand(s)
  {
    MapKeepsPermutation(ArtikelVan, SortByPrice(s), s);
  }

  /** The catalogue prices of a sorted list, in order, depend only on the articles in it. */
  lemma SortedPricesAreOrderFree(s: seq<BonRegel>, t: seq<BonRegel>)
    requires Gescand(s) == Gescand(t)
    ensures Map(CatalogusPrijs, SortByPrice(s)) == Map(CatalogusPrijs, SortByPrice(t))
  {
    var os, ot := SortByPrice(s), SortByPrice(t);
    SortKeepsArticles(s);
    SortKeepsArticles(t);
    MapKeepsPermutation(PrijsVan, Map(ArtikelVan, os), Map(ArtikelVan, ot));
    CatalogusPrijsOfArtikel(os);
    CatalogusPrijsOfArtikel(ot);
    SortedIsAscending(os);
    SortedIsAscending(ot);
    AscendingIsUnique(Map(CatalogusPrijs, os), Map(CatalogusPrijs, ot));
  }

  /** The catalogue prices of the free lines depend only on which articles were
      scanned, not on the order in which they were scanned. */
  lemma GratisPricesAreOrderFree(s: seq<BonRegel>, t: seq<BonRegel>)
    requires Gescand(s) == Gescand(t)
    ensures Map(CatalogusPrijs, Gratis(s)) == Map(CatalogusPrijs, Gratis(t))
  {
    NiveasAreOrderFree(s, t);
    SortedPricesAreOrderFree(Niveas(s), Niveas(t));
    var os, ot := SortByPrice(Niveas(s)), SortByPrice(Niveas(t));
    assert |os| == |ot| by {
      assert |Map(CatalogusPrijs, os)| == |Map(CatalogusPrijs, ot)|;
    }
    MapPrefix(CatalogusPrijs, os, |os| / 2);
    MapPrefix(CatalogusPrijs, ot, |ot| / 2);
  }

  /** What each line costs once the lines in gratis are free and every other
      line is back at its catalogue price. */
  function Afgerekend(s: seq<BonRegel>, gratis: seq<BonRegel>): seq<int> {
    seq(|s|, i requires 0 <= i < |s| => if s[i] in gratis then 0 else s[i].artikel.prijs)
  }

  lemma SumCons(v: int, s: seq<int>)
    ensures Sum([v] + s) == v + Sum(s)
  {
    SumAppend([v], s);
    assert [v][..0] == [];
  }

  lemma DistinctTail(s: seq<BonRegel>)
    requires s != [] && Distinct(s)
    ensures s[0] !in s[1..] && Distinct(s[1..])
  {
    HeadAndTail(s);
    assert s[0] in s;
    assert multiset(s)[s[0]] == multiset{s[0]}[s[0]] + multiset(s[1..])[s[0]];
    forall y | y in s[1..]
      ensures multiset(s[1..])[y] == 1
    {
      assert multiset(s)[y] == multiset{s[0]}[y] + multiset(s[1..])[y];
    }
  }

  /** Taking one line out of a list of distinct lines leaves exactly the others. */
  lemma DistinctRemoveAt(g: seq<BonRegel>, k: int)
    requires Distinct(g) && 0 <= k < |g|
    ensures Distinct(g[..k] + g[k + 1..])
    ensures forall y :: y in g[..k] + g[k + 1..] <==> y in g && y != g[k]
  {
    var rest := g[..k] + g[k + 1..];
    RemoveAt(g, k);
    forall y
      ensures y in rest <==> y in g && y != g[k]
    {
      assert multiset(g)[y] == multiset(rest)[y] + multiset{g[k]}[y];
    }
    forall y | y in rest
      ensures multiset(rest)[y] == 1
    {
      assert multiset(g)[y] == multiset(rest)[y] + multiset{g[k]}[y];
    }
  }

  lemma SumWithoutAt(g: seq<BonRegel>, k: int)
    requires 0 <= k < |g|
    ensures Sum(Map(CatalogusPrijs, g)) == g[k].artikel.prijs + Sum(Map(CatalogusPrijs, g[..k] + g[k + 1..]))
  {
    var rest := g[..k] + g[k + 1..];
    RemoveAt(g, k);
    assert multiset(g) == multiset([g[k]] + rest);
    MapKeepsPermutation(CatalogusPrijs, g, [g[k]] + rest);
    SumKeepsPermutation(Map(CatalogusPrijs, g), Map(CatalogusPrijs, [g[k]] + rest));
    MapCons(CatalogusPrijs, g[k], rest);
    SumCons(g[k].artikel.prijs, Map(CatalogusPrijs, rest));
  }

  lemma AfgerekendCons(x: BonRegel, rest: seq<BonRegel>, gratis: seq<BonRegel>)
    ensures Afgerekend([x] + rest, gratis) == [if x in gratis then 0 else x.artikel.prijs] + Afgerekend(rest, gratis)
  {
  }

  lemma AfgerekendSameFree(s: seq<BonRegel>, gratis: seq<BonRegel>, g: seq<BonRegel>)
    requires forall y | y in s :: y in gratis <==> y in g
    ensures Afgerekend(s, gratis) == Afgerekend(s, g)
  {
    forall i | 0 <= i < |s|
      ensures Afgerekend(s, gratis)[i] == Afgerekend(s, g)[i]
    {
      assert s[i] in s;
    }
  }

  /** Freeing some distinct lines of a receipt takes exactly their catalogue prices off the sum. */
  lemma {:induction false} AfgerekendSum(s: seq<BonRegel>, gratis: seq<BonRegel>)
    requires Distinct(s) && Distinct(gratis)
    requires forall x | x in gratis :: x in s
    ensures Sum(Afgerekend(s, gratis)) == Sum(Map(CatalogusPrijs, s)) - Sum(Map(CatalogusPrijs, gratis))
    decreases |s|
  {
    if gratis == [] {
      assert Afgerekend(s, gratis) == Map(CatalogusPrijs, s);
      assert Map(CatalogusPrijs, gratis) == [];
    } else {
      assert gratis[0] in s;
      var x, rest := s[0], s[1..];
      HeadAndTail(s);
      DistinctTail(s);
      var v := if x in gratis then 0 else x.artikel.prijs;
      AfgerekendCons(x, rest, gratis);
      SumCons(v, Afgerekend(rest, gratis));
      MapCons(CatalogusPrijs, x, rest);
      SumCons(x.artikel.prijs, Map(CatalogusPrijs, rest));
      if x in gratis {
        var k :| 0 <= k < |gratis| && gratis[k] == x;
        var g := gratis[..k] + gratis[k + 1..];
        DistinctRemoveAt(gratis, k);
        AfgerekendSameFree(rest, gratis, g);
        forall y | y in g
          ensures y in rest
        {
          assert y in s && y != x;
        }
        AfgerekendSum(rest, g);
        SumWithoutAt(gratis, k);
      } else {
        forall y | y in gratis
          ensures y in rest
        {
          assert y in s && y != x;
        }
        AfgerekendSum(rest, gratis);
      }
    }
  }

  /** The total of a receipt whose lines are all at their catalogue price: the
      sum of the catalogue prices, less those of the free lines when a rule is configured. */
  ghost function TotaalVerwacht(regels: seq<BonRegel>, metRegel: bool): int {
    Sum(Map(CatalogusPrijs, regels)) - (if metRegel then Sum(Map(CatalogusPrijs, Gratis(regels))) else 0)
  }

  /** Two receipts with the same articles, in whatever order, have the same expected total. */
  lemma TotaalVerwachtIsOrderFree(s: seq<BonRegel>, t: seq<BonRegel>, metRegel: bool)
    requires Gescand(s) == Gescand(t)
    ensures TotaalVerwacht(s, metRegel) == TotaalVerwacht(t, metRegel)
  {
    MapKeepsPermutation(PrijsVan, Map(ArtikelVan, s), Map(ArtikelVan, t));
    CatalogusPrijsOfArtikel(s);
    CatalogusPrijsOfArtikel(t);
    SumKeepsPermutation(Map(CatalogusPrijs, s), Map(CatalogusPrijs, t));
    GratisPricesAreOrderFree(s, t);
  }

  lemma PrijzenAfgerekend(regels: seq<BonRegel>, gratis: seq<BonRegel>)
    requires forall r | r in regels :: r.prijs == if r in gratis then 0 else r.artikel.prijs
    ensures Prijzen(regels) == Afgerekend(regels, gratis)
  {
  }

  lemma AfgerekendIsVerwacht(regels: seq<BonRegel>, metRegel: bool)
    requires Distinct(regels)
    ensures Sum(Afgerekend(regels, if metRegel then Gratis(regels) else [])) == TotaalVerwacht(regels, metRegel)
  {
    if metRegel {
      GratisIsCheapestHalf(regels);
      GratisIsDistinct(regels);
      AfgerekendSum(regels, Gratis(regels));
    } else {
      AfgerekendSum(regels, []);
      assert Map(CatalogusPrijs, []) == [];
    }
  }

  /** totaal on a receipt whose lines are still at their catalogue price (no
      totaal since they were scanned) returns the expected total, which depends
      only on the articles scanned. */
  method TotaalVanCatalogusprijzen(kassa: KassaImpl) returns (t: int)
    requires kassa.Valid()
    requires forall r | r in kassa.regels :: r.prijs == r.artikel.prijs
    modifies kassa, set r | r in kassa.regels
    ensures kassa.Valid() && kassa.regels == old(kassa.regels)
    ensures t == TotaalVerwacht(kassa.regels, kassa.kortingsRegels != [])
  {
    t := kassa.Totaal();
    PrijzenAfgerekend(kassa.regels, if kassa.kortingsRegels != [] then Gratis(kassa.regels) else []);
    AfgerekendIsVerwacht(kassa.regels, kassa.kortingsRegels != []);
  }

  // ---------------------------------------------------------------------------
  // Worked examples over a small catalogue

  const HandzeepNivea := Artikel(135, "Handzeep", "1", "Nivea", "Handzeep Nivea")
  const HandzeepDove := Artikel(155, "Handzeep", "2", "Dove", "Handzeep Dove")
  const ScheerzeepNivea := Artikel(250, "Scheerzeep", "3", "Nivea", "Scheerzeep Nivea")
  const LippenbalsemNivea := Artikel(99, "Lippenbalsem", "8", "Nivea", "Lippenbalsem Nivea")

  function Catalogus(sku: string): Artikel {
    if sku == "1" then HandzeepNivea
    else if sku == "2" then HandzeepDove
    else if sku == "3" then ScheerzeepNivea
    else LippenbalsemNivea
  }

  lemma {:induction false} AllNivea(s: seq<BonRegel>)
    requires forall r | r in s :: IsNivea(r)
    ensures Niveas(s) == s
  {
    if s != [] {
      AllNivea(s[1..]);
      assert s == [s[0]] + s[1..];
    }
  }

  /** When every line is a Nivea line, the free ones are the cheaper half of all of them. */
  lemma GratisOfAllNivea(s: seq<BonRegel>, sorted: seq<BonRegel>)
    requires forall r | r in s :: IsNivea(r)
    requires SortByPrice(s) == sorted
    ensures Gratis(s) == sorted[..|sorted| / 2]
  {
    AllNivea(s);
  }

  /** A line dearer than all the others is sorted behind them. */
  lemma {:induction false} SortDearestFirst(x: BonRegel, t: seq<BonRegel>)
    requires forall y | y in t :: y.artikel.prijs < x.artikel.prijs
    ensures SortByPrice([x] + t) == SortByPrice(t) + [x]
  {
    var s := [x] + t;
    assert s[0] == x && s[1..] == t;
    var sorted := SortByPrice(t);
    assert forall y | y in sorted :: y in multiset(t);
    InsertLast(x, sorted);
  }

  /** A line no dearer than any other stays in front. */
  lemma SortCheapestFirst(x: BonRegel, t: seq<BonRegel>)
    requires forall y | y in t :: x.artikel.prijs <= y.artikel.prijs
    ensures SortByPrice([x] + t) == [x] + SortByPrice(t)
  {
    var s := [x] + t;
    assert s[0] == x && s[1..] == t;
    var sorted := SortByPrice(t);
    assert sorted != [] ==> sorted[0] in multiset(t);
    InsertFirst(x, sorted);
  }

  /** Adding a line at the end adds its price to the sum of the prices. */
  lemma SumPrijzenSnoc(s: seq<BonRegel>, x: BonRegel)
    ensures Sum(Prijzen(s + [x])) == Sum(Prijzen(s)) + x.prijs
  {
    assert (s + [x])[..|s|] == s;
  }

  lemma SumPrijzenTwo(a: BonRegel, b: BonRegel)
    ensures Sum(Prijzen([a, b])) == a.prijs + b.prijs
  {
    SumPrijzenSnoc([], a);
    SumPrijzenSnoc([a], b);
    assert [a] == [] + [a] && [a, b] == [a] + [b];
  }

  lemma SumPrijzenThree(a: BonRegel, b: BonRegel, c: BonRegel)
    ensures Sum(Prijzen([a, b, c])) == a.prijs + b.prijs + c.prijs
  {
    SumPrijzenTwo(a, b);
    SumPrijzenSnoc([a, b], c);
    assert [a, b, c] == [a, b] + [c];
  }

  /** An empty receipt totals 0. */
  method EmptyReceiptExample() returns (t: int)
    ensures t == 0
  {
    var kassa := new KassaImpl([NiveaTweedeGratisRegel], Catalogus);
    t := kassa.Totaal();
  }

  method ScanNoPair() returns (kassa: KassaImpl, n: BonRegel, d: BonRegel)
    ensures fresh(kassa) && fresh(n) && fresh(d) && n != d
    ensures kassa.Valid() && kassa.kortingsRegels == [NiveaTweedeGratisRegel]
    ensures kassa.regels == [n, d]
    ensures n.artikel == HandzeepNivea && d.artikel == HandzeepDove
    ensures n.prijs == 135 && d.prijs == 155
  {
    kassa := new KassaImpl([NiveaTweedeGratisRegel], Catalogus);
    kassa.Scan("1");
    kassa.Scan("2");
    n, d := kassa.regels[0], kassa.regels[1];
    assert kassa.regels == [n, d];
  }

  /** totaal over two lines of which neither is free. */
  method TotaalNoneFree(kassa: KassaImpl, a: BonRegel, b: BonRegel) returns (t: int)
    requires kassa.Valid()
    requires kassa.regels == [a, b] && Gratis(kassa.regels) == []
    modifies kassa, a, b
    ensures t == old(a.prijs) + old(b.prijs)
  {
    t := kassa.Totaal();
    SumPrijzenTwo(a, b);
  }

  /** One Nivea line alone is not discounted; a Dove line never is. */
  method NoPairExample() returns (t: int)
    ensures t == 135 + 155
  {
    var kassa, n, d := ScanNoPair();
    NoPairFree(n, d);
    t := TotaalNoneFree(kassa, n, d);
  }

  lemma NoPairFree(n: BonRegel, d: BonRegel)
    requires n.artikel == HandzeepNivea && d.artikel == HandzeepDove
    ensures Gratis([n, d]) == []
  {
    assert Niveas([d]) == [] by {
      assert [d][1..] == [];
    }
    assert Niveas([n, d]) == [n] by {
      assert [n, d][1..] == [d];
    }
  }

  // Three equal Nivea lines

  lemma ThreeEqualSorted(a: BonRegel, b: BonRegel, c: BonRegel)
    requires a.artikel == b.artikel == c.artikel
    ensures SortByPrice([a, b, c]) == [a, b, c]
  {
    SortOfSorted([c]);
    SortCheapestFirst(b, [c]);
    ConsTwo(b, c);
    SortCheapestFirst(a, [b, c]);
    ConsThree(a, b, c);
  }

  lemma ThreeEqualNivea(a: BonRegel, b: BonRegel, c: BonRegel)
    requires a.artikel == b.artikel == c.artikel == HandzeepNivea
    ensures forall r | r in [a, b, c] :: IsNivea(r)
  {
  }

  lemma FirstOfThree<T>(a: T, b: T, c: T)
    ensures [a, b, c][..|[a, b, c]| / 2] == [a]
  {
  }

  lemma ThreeEqualFree(a: BonRegel, b: BonRegel, c: BonRegel)
    requires a.artikel == b.artikel == c.artikel == HandzeepNivea
    ensures Gratis([a, b, c]) == [a]
  {
    ThreeEqualSorted(a, b, c);
    ThreeEqualNivea(a, b, c);
    FirstOfThree(a, b, c);
    GratisOfAllNivea([a, b, c], [a, b, c]);
  }

  /** totaal over three lines of which the first is the free one. */
  method TotaalFirstFree(kassa: KassaImpl, a: BonRegel, b: BonRegel, c: BonRegel) returns (t: int)
    requires kassa.Valid() && kassa.kortingsRegels != []
    requires kassa.regels == [a, b, c] && Gratis(kassa.regels) == [a]
    requires a != b && a != c
    modifies kassa, a, b, c
    ensures t == old(b.prijs) + old(c.prijs)
  {
    t := kassa.Totaal();
    assert a in kassa.regels && b in kassa.regels && c in kassa.regels;
    assert a !in [c] && b !in [c];
    SumPrijzenThree(a, b, c);
  }

  method ScanThreeHandSoaps() returns (kassa: KassaImpl, a: BonRegel, b: BonRegel, c: BonRegel)
    ensures fresh(kassa) && fresh(a) && fresh(b) && fresh(c)
    ensures a != b && a != c
    ensures kassa.Valid() && kassa.kortingsRegels == [NiveaTweedeGratisRegel]
    ensures kassa.regels == [a, b, c]
    ensures a.artikel == b.artikel == c.artikel == HandzeepNivea
    ensures b.prijs == 135 && c.prijs == 135
  {
    kassa := new KassaImpl([NiveaTweedeGratisRegel], Catalogus);
    kassa.Scan("1");
    kassa.Scan("1");
    kassa.Scan("1");
    a, b, c := kassa.regels[0], kassa.regels[1], kassa.regels[2];
    assert kassa.regels == [a, b, c];
  }

  /** Three Nivea lines of equal price: one pair, so exactly one line is free. */
  method ThreeOfAKindExample() returns (t: int)
    ensures t == 2 * 135
  {
    var kassa, a, b, c := ScanThreeHandSoaps();
    ThreeEqualFree(a, b, c);
    t := TotaalFirstFree(kassa, a, b, c);
  }

  // The stale-discount scenario

  lemma ConsTwo<T>(a: T, b: T)
    ensures [a] + [b] == [a, b]
  {
  }

  lemma ConsThree<T>(a: T, b: T, c: T)
    ensures [a] + [b, c] == [a, b, c] && [a, b] + [c] == [a, b, c]
  {
  }

  /** Two lines, the dearer one scanned first, sort the other way round. */
  lemma SortTwo(a: BonRegel, b: BonRegel)
    requires b.artikel.prijs < a.artikel.prijs
    ensures SortByPrice([a, b]) == [b, a]
  {
    SortOfSorted([b]);
    SortDearestFirst(a, [b]);
    ConsTwo(a, b);
    ConsTwo(b, a);
  }

  lemma FirstOfTwo<T>(a: T, b: T)
    ensures [a, b][..|[a, b]| / 2] == [a]
  {
  }

  /** Shaving soap before hand soap: the hand soap is the free one. */
  lemma StaleFirstFree(s: BonRegel, h: BonRegel)
    requires s.artikel == ScheerzeepNivea && h.artikel == HandzeepNivea
    ensures Gratis([s, h]) == [h]
  {
    SortTwo(s, h);
    assert forall r | r in [s, h] :: IsNivea(r);
    FirstOfTwo(h, s);
    GratisOfAllNivea([s, h], [h, s]);
  }

  /** The hand soap sorts behind the lip balm, the shaving soap behind both. */
  lemma SortStaleAll(s: BonRegel, h: BonRegel, l: BonRegel)
    requires s.artikel == ScheerzeepNivea && h.artikel == HandzeepNivea
    requires l.artikel == LippenbalsemNivea
    ensures SortByPrice([s, h, l]) == [l, h, s]
  {
    SortTwo(h, l);
    SortDearestFirst(s, [h, l]);
    ConsThree(s, h, l);
    ConsThree(l, h, s);
  }

  lemma NiveaStaleAll(s: BonRegel, h: BonRegel, l: BonRegel)
    requires s.artikel == ScheerzeepNivea && h.artikel == HandzeepNivea
    requires l.artikel == LippenbalsemNivea
    ensures forall r | r in [s, h, l] :: IsNivea(r)
  {
  }

  /** Of the three lines of the scenario only the lip balm is free. */
  lemma StaleAllFree(regels: seq<BonRegel>, s: BonRegel, h: BonRegel, l: BonRegel)
    requires s.artikel == ScheerzeepNivea && h.artikel == HandzeepNivea
    requires l.artikel == LippenbalsemNivea
    requires regels == [s, h, l]
    ensures Gratis(regels) == [l]
  {
    SortStaleAll(s, h, l);
    NiveaStaleAll(s, h, l);
    FirstOfThree(l, h, s);
    GratisOfAllNivea(regels, [l, h, s]);
  }

  /** totaal over two lines of which the second is the free one. */
  method TotaalSecondFree(kassa: KassaImpl, a: BonRegel, b: BonRegel) returns (t: int)
    requires kassa.Valid() && kassa.kortingsRegels != []
    requires kassa.regels == [a, b] && Gratis(kassa.regels) == [b] && a != b
    modifies kassa, a, b
    ensures kassa.Valid() && kassa.regels == [a, b]
    ensures a.prijs == old(a.prijs) && b.prijs == 0
    ensures t == old(a.prijs)
  {
    t := kassa.Totaal();
    SumPrijzenTwo(a, b);
  }

  /** totaal over three lines of which the last is the free one: the first
      two keep whatever price they had. */
  method TotaalLastFree(kassa: KassaImpl, a: BonRegel, b: BonRegel, c: BonRegel) returns (t: int)
    requires kassa.Valid() && kassa.kortingsRegels != []
    requires kassa.regels == [a, b, c] && Gratis(kassa.regels) == [c]
    requires a != c && b != c
    modifies kassa, a, b, c
    ensures kassa.Valid() && kassa.regels == [a, b, c]
    ensures t == old(a.prijs) + old(b.prijs)
  {
    t := kassa.Totaal();
    assert a in kassa.regels && b in kassa.regels && c in kassa.regels;
    assert a !in [c] && b !in [c];
    SumPrijzenThree(a, b, c);
  }

  /** The corrected total over the same three lines: the first two are charged
      their catalogue price whatever they cost before. */
  method HerberekendLastFree(kassa: KassaImpl, a: BonRegel, b: BonRegel, c: BonRegel) returns (t: int)
    requires kassa.Valid() && kassa.kortingsRegels != []
    requires kassa.regels == [a, b, c] && Gratis(kassa.regels) == [c]
    requires a != c && b != c
    modifies kassa, a, b, c
    ensures t == a.artikel.prijs + b.artikel.prijs
  {
    t := kassa.TotaalHerberekend();
    assert a in kassa.regels && b in kassa.regels && c in kassa.regels;
    assert a !in [c] && b !in [c];
    SumPrijzenThree(a, b, c);
  }

  method ScanSoaps() returns (kassa: KassaImpl, s: BonRegel, h: BonRegel)
    ensures fresh(kassa) && fresh(s) && fresh(h) && s != h
    ensures kassa.Valid() && kassa.kortingsRegels == [NiveaTweedeGratisRegel]
    ensures kassa.repository == Catalogus
    ensures kassa.regels == [s, h]
    ensures s.artikel == ScheerzeepNivea && h.artikel == HandzeepNivea
    ensures s.prijs == 250
  {
    kassa := new KassaImpl([NiveaTweedeGratisRegel], Catalogus);
    kassa.Scan("3");
    kassa.Scan("1");
    s, h := kassa.regels[0], kassa.regels[1];
    assert kassa.regels == [s, h];
  }

  method ScanLipBalm(kassa: KassaImpl, s: BonRegel, h: BonRegel) returns (l: BonRegel)
    requires kassa.Valid() && kassa.repository == Catalogus
    requires kassa.regels == [s, h]
    modifies kassa
    ensures fresh(l)
    ensures kassa.Valid()
    ensures kassa.regels == [s, h, l]
    ensures l.artikel == LippenbalsemNivea
  {
    kassa.Scan("8");
    l := kassa.regels[2];
    assert kassa.regels == [s, h, l];
  }

  /** The stale-discount scenario. A shaving soap (2,50) and a hand soap (1,35),
      both Nivea, are scanned and totaal frees the hand soap: 2,50. A lip balm
      (0,99, Nivea) is scanned next. totaal as written frees the lip balm but
      leaves the hand soap at 0 from the first call, so two of the three Nivea
      lines are free although they hold only one pair, and the total stays 2,50.
      Recomputed from the catalogue prices only the lip balm is free: 3,85. */
  method StaleDiscountExample() returns (eerste: int, zoalsGeschreven: int, herberekend: int)
    ensures eerste == 250
    ensures zoalsGeschreven == 250
    ensures herberekend == 135 + 250
  {
    var kassa, s, h := ScanSoaps();
    StaleFirstFree(s, h);
    eerste := TotaalSecondFree(kassa, s, h);
    var l := ScanLipBalm(kassa, s, h);
    StaleAllFree(kassa.regels, s, h, l);
    zoalsGeschreven := TotaalLastFree(kassa, s, h, l);
    herberekend := HerberekendLastFree(kassa, s, h, l);
  }
}
