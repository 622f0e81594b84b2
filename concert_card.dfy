/** The concert card's "from" price (src/components/concerts/ConcertCard.tsx):
    `Math.min(...sections.map(s => s.price))`. An empty section list gives
    `Infinity` in JavaScript; here it gives None. */
module ConcertCard {
  import opened Types

  function LowestPrice(sections: seq<ConcertSection>): (lowest: Option<real>)
    ensures lowest.None? <==> sections == []
  {
    if sections == [] then None
    else
      var rest := LowestPrice(sections[1..]);
      if rest.None? || sections[0].price <= rest.value then Some(sections[0].price) else rest
  }

  /** The lowest price is at most every section's price and is the price of
      one of the sections. */
  lemma {:induction false} LowestPriceIsMinimum(sections: seq<ConcertSection>)
    requires sections != []
    ensures forall s :: s in sections ==> LowestPrice(sections).value <= s.price
    ensures exists s :: s in sections && s.price == LowestPrice(sections).value
  {
    if |sections| > 1 {
      LowestPriceIsMinimum(sections[1..]);
      var s0 :| s0 in sections[1..] && s0.price == LowestPrice(sections[1..]).value;
      assert s0 in sections;
      forall s | s in sections ensures LowestPrice(sections).value <= s.price {
        if s != sections[0] {
          assert s in sections[1..];
        }
      }
    } else {
      assert sections == [sections[0]];
      assert sections[0] in sections;
    }
  }

  /** Two lists with the same sections, in any order, show the same price. */
  lemma LowestPriceIgnoresOrder(a: seq<ConcertSection>, b: seq<ConcertSection>)
    requires multiset(a) == multiset(b)
    ensures LowestPrice(a) == LowestPrice(b)
  {
    if a != [] {
      assert a[0] in multiset(b);
      LowestPriceIsMinimum(a);
      LowestPriceIsMinimum(b);
      var sa :| sa in a && sa.price == LowestPrice(a).value;
      var sb :| sb in b && sb.price == LowestPrice(b).value;
      assert sa in multiset(b) && sb in multiset(a);
    } else {
      assert |multiset(b)| == 0;
    }
  }

  /** Adding a section never raises the lowest price, and the new section's
      price bounds it from above. */
  lemma AddingSectionNeverRaises(sections: seq<ConcertSection>, extra: ConcertSection)
    requires sections != []
    ensures LowestPrice(sections + [extra]).value <= LowestPrice(sections).value
    ensures LowestPrice(sections + [extra]).value <= extra.price
  {
    var all := sections + [extra];
    LowestPriceIsMinimum(sections);
    LowestPriceIsMinimum(all);
    var s :| s in sections && s.price == LowestPrice(sections).value;
    assert s in all;
    assert extra in all;
  }
}
