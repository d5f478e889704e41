/** Option selection of src/components/KitOptionsModal.tsx: the modal keeps
    the ids of the selected add-ons, a click toggles one of them, and the
    shown total is the kit's base price plus the price of every selected
    add-on. */
module KitOptions {
  datatype KitOption = KitOption(id: string, name: string, price: int)

  /** `prev.filter((id) => id !== optionId)`. */
  function Without(s: seq<string>, x: string): (r: seq<string>)
    ensures x !in r
    ensures forall y :: y != x ==> (y in r <==> y in s)
  {
    if s == [] then []
    else Without(s[..|s| - 1], x) + (if s[|s| - 1] == x then [] else [s[|s| - 1]])
  }

  /** Lines 33-39. */
  function Toggled(s: seq<string>, x: string): seq<string> {
    if x in s then Without(s, x) else s + [x]
  }

  predicate NoDuplicates(s: seq<string>) {
    forall i, j :: 0 <= i < j < |s| ==> s[i] != s[j]
  }

  lemma {:induction false} WithoutKeepsNoDuplicates(s: seq<string>, x: string)
    requires NoDuplicates(s)
    ensures NoDuplicates(Without(s, x))
  {
    if s != [] {
      var init, last := s[..|s| - 1], s[|s| - 1];
      WithoutKeepsNoDuplicates(init, x);
      assert last !in init;
      assert last !in Without(init, x);
    }
  }

  lemma {:induction false} WithoutAbsent(s: seq<string>, x: string)
    requires x !in s
    ensures Without(s, x) == s
  {
    if s != [] {
      var init, last := s[..|s| - 1], s[|s| - 1];
      assert s == init + [last];
      assert x !in init;
      WithoutAbsent(init, x);
      assert Without(s, x) == Without(init, x) + [last];
    }
  }

  /** A toggle flips the membership of `x` and of nothing else, and the
      selection never holds an id twice. */
  lemma ToggleMembership(s: seq<string>, x: string)
    requires NoDuplicates(s)
    ensures NoDuplicates(Toggled(s, x))
    ensures x in Toggled(s, x) <==> x !in s
    ensures forall y :: y != x ==> (y in Toggled(s, x) <==> y in s)
  {
    if x in s {
      WithoutKeepsNoDuplicates(s, x);
    }
  }

  /** Toggling twice restores the selected set; it restores the sequence
      itself when `x` was not selected, and otherwise moves `x` to the
      end. */
  lemma ToggleTwice(s: seq<string>, x: string)
    requires NoDuplicates(s)
    ensures (set y | y in Toggled(Toggled(s, x), x)) == (set y | y in s)
    ensures x !in s ==> Toggled(Toggled(s, x), x) == s
    ensures x in s ==> Toggled(Toggled(s, x), x) == Without(s, x) + [x]
  {
    ToggleMembership(s, x);
    ToggleMembership(Toggled(s, x), x);
    if x !in s {
      WithoutAbsent(s, x);
      WithoutSnoc(s, x);
    }
  }

  lemma WithoutSnoc(s: seq<string>, x: string)
    ensures Without(s + [x], x) == Without(s, x)
  {
    assert (s + [x])[..|s|] == s;
  }

  /** `options.find((opt) => opt.id === optionId)?.price`, 0 when there is
      no such option. */
  function PriceOf(options: seq<KitOption>, id: string): int {
    if options == [] then 0
    else if options[0].id == id then options[0].price
    else PriceOf(options[1..], id)
  }

  /** The price is that of the first option with the id, and 0 when no
      option has it. */
  lemma {:induction false} PriceOfFirst(options: seq<KitOption>, id: string)
    ensures (forall i :: 0 <= i < |options| ==> options[i].id != id) ==> PriceOf(options, id) == 0
    ensures forall i :: (0 <= i < |options| && options[i].id == id &&
                         (forall k :: 0 <= k < i ==> options[k].id != id)) ==> PriceOf(options, id) == options[i].price
  {
    if options != [] && options[0].id != id {
      var tail := options[1..];
      PriceOfFirst(tail, id);
      forall i | 1 <= i < |options|
        ensures options[i] == tail[i - 1]
      {
      }
    }
  }

  /** The sum of the prices of the selected ids. */
  function PriceSum(options: seq<KitOption>, s: seq<string>): int {
    if s == [] then 0 else PriceSum(options, s[..|s| - 1]) + PriceOf(options, s[|s| - 1])
  }

  lemma {:induction false} PriceSumWithout(options: seq<KitOption>, s: seq<string>, x: string)
    requires NoDuplicates(s)
    ensures PriceSum(options, Without(s, x)) == PriceSum(options, s) - (if x in s then PriceOf(options, x) else 0)
  {
    if s != [] {
      var init, last := s[..|s| - 1], s[|s| - 1];
      PriceSumWithout(options, init, x);
      assert NoDuplicates(init);
      if last == x {
        assert s == init + [last];
        assert x !in init;
        assert Without(s, x) == Without(init, x) + [];
        assert Without(init, x) + [] == Without(init, x);
        assert x in s;
        assert PriceSum(options, s) == PriceSum(options, init) + PriceOf(options, x);
      } else {
        assert (x in s) == (x in init) by {
          assert s == init + [last];
        }
        assert Without(init, x) + [last] == Without(s, x);
        assert (Without(init, x) + [last])[..|Without(init, x)|] == Without(init, x);
      }
    }
  }

  /** Toggling an add-on adds its price to the total or takes it away. */
  lemma ToggleChangesTotal(options: seq<KitOption>, s: seq<string>, x: string)
    requires NoDuplicates(s)
    ensures PriceSum(options, Toggled(s, x)) ==
              PriceSum(options, s) + (if x in s then -PriceOf(options, x) else PriceOf(options, x))
  {
    if x in s {
      PriceSumWithout(options, s, x);
    } else {
      assert (s + [x])[..|s|] == s;
    }
  }

  /** Ids that name no option add nothing to the total. */
  lemma {:induction false} UnknownIdsIgnored(options: seq<KitOption>, s: seq<string>, x: string)
    requires forall i :: 0 <= i < |options| ==> options[i].id != x
    ensures PriceSum(options, s + [x]) == PriceSum(options, s)
  {
    PriceOfFirst(options, x);
    assert (s + [x])[..|s|] == s;
  }

  /** The modal's state. */
  class KitOptionsModal {
    const basePrice: int
    const options: seq<KitOption>
    var selectedOptions: seq<string>

    ghost predicate Valid()
      reads this
    {
      NoDuplicates(selectedOptions)
    }

    constructor(basePrice: int, options: seq<KitOption>)
      ensures Valid()
      ensures this.basePrice == basePrice && this.options == options && selectedOptions == []
    {
      this.basePrice := basePrice;
      this.options := options;
      selectedOptions := [];
    }

    method ToggleOption(optionId: string)
      requires Valid()
      modifies this
      ensures Valid()
      ensures selectedOptions == Toggled(old(selectedOptions), optionId)
    {
      ToggleMembership(selectedOptions, optionId);
      if optionId in selectedOptions {
        selectedOptions := Without(selectedOptions, optionId);
      } else {
        selectedOptions := selectedOptions + [optionId];
      }
    }

    /** Lines 41-48. */
    method CalculateTotal() returns (total: int)
      ensures total == basePrice + PriceSum(options, selectedOptions)
    {
      total := basePrice;
      for i := 0 to |selectedOptions|
        invariant total == basePrice + PriceSum(options, selectedOptions[..i])
      {
        assert selectedOptions[..i + 1][..i] == selectedOptions[..i];
        var optionId := selectedOptions[i];
        var found := FindOption(options, optionId);
        PriceOfFirst(options, optionId);
        if found >= 0 {
          total := total + options[found].price;
        }
      }
      assert selectedOptions[..|selectedOptions|] == selectedOptions;
    }
  }

  /** Index of the first option with the id, or -1. */
  method FindOption(options: seq<KitOption>, id: string) returns (k: int)
    ensures k == -1 ==> forall i :: 0 <= i < |options| ==> options[i].id != id
    ensures k != -1 ==> 0 <= k < |options| && options[k].id == id && options[k].price == PriceOf(options, id)
    ensures k != -1 ==> forall j :: 0 <= j < k ==> options[j].id != id
  {
    PriceOfFirst(options, id);
    for i := 0 to |options|
      invariant forall j :: 0 <= j < i ==> options[j].id != id
    {
      if options[i].id == id {
        return i;
      }
    }
    return -1;
  }
}
