/**
 * The selection logic of the branded multi-select: its value is a list of
 * selected option values, toggled one value at a time or cleared, and each
 * selected value is shown as a chip labelled by its option.
 */
module MultiSelect {
  import opened Optional
  import opened Seqs

  /** One entry of the options list. */
  datatype SelectOption = SelectOption(labelText: string, value: string)

  /** value.filter(v => v !== x) */
  function Without(s: seq<string>, x: string): (r: seq<string>)
    ensures x !in r
    ensures forall y :: y != x ==> multiset(r)[y] == multiset(s)[y]
    ensures Subseq(r, s)
  {
    if s == [] then []
    else
      assert s == [s[0]] + s[1..];
      if s[0] == x then Without(s[1..], x)
      else [s[0]] + Without(s[1..], x)
  }

  /** toggleOption: remove every occurrence of a selected value, append an unselected one. */
  function Toggle(value: seq<string>, v: string): (r: seq<string>)
    ensures v in value ==> v !in r && Subseq(r, value)
    ensures v in value ==> forall y :: y != v ==> multiset(r)[y] == multiset(value)[y]
    ensures v !in value ==> |r| == |value| + 1 && r[..|value|] == value && r[|value|] == v
    ensures forall y :: y in r <==> if y == v then v !in value else y in value
  {
    if v in value then
      var r := Without(value, v);
      assert forall y :: y != v ==> (y in r <==> y in multiset(value));
      r
    else value + [v]
  }

  /** clearAll: the empty selection, whatever was selected. */
  function ClearAll(value: seq<string>): (r: seq<string>)
    ensures forall y :: y !in r
  {
    []
  }

  /** A selection without duplicates stays without duplicates under a toggle. */
  lemma ToggleKeepsNoDuplicates(value: seq<string>, v: string)
    requires NoDuplicates(value)
    ensures NoDuplicates(Toggle(value, v))
  {
    var r := Toggle(value, v);
    NoDuplicatesMultiplicity(value);
    if v in value {
      forall y ensures multiset(r)[y] <= 1 {
        if y == v {
          assert y !in r;
        }
      }
    } else {
      forall y ensures multiset(r)[y] <= 1 {
        assert multiset(r)[y] == multiset(value)[y] + multiset([v])[y] by {
          assert r == value + [v];
        }
      }
    }
    NoDuplicatesMultiplicity(r);
  }

  /** Removing a value that is not there changes nothing. */
  lemma {:induction false} WithoutAbsent(s: seq<string>, x: string)
    requires x !in s
    ensures Without(s, x) == s
  {
    if s != [] {
      WithoutAbsent(s[1..], x);
      assert s == [s[0]] + s[1..];
    }
  }

  lemma {:induction false} WithoutAppend(s: seq<string>, t: seq<string>, x: string)
    ensures Without(s + t, x) == Without(s, x) + Without(t, x)
  {
    if s == [] {
      assert s + t == t;
    } else {
      assert (s + t)[0] == s[0] && (s + t)[1..] == s[1..] + t;
      WithoutAppend(s[1..], t, x);
    }
  }

  /** Toggling an unselected value twice restores the selection exactly. */
  lemma ToggleTwiceAbsent(value: seq<string>, v: string)
    requires v !in value
    ensures Toggle(Toggle(value, v), v) == value
  {
    WithoutAppend(value, [v], v);
    WithoutAbsent(value, v);
    assert Without([v], v) == [];
  }

  /** Toggling a selected value twice moves it, once, to the end of the selection. */
  lemma ToggleTwicePresent(value: seq<string>, v: string)
    requires v in value
    ensures Toggle(Toggle(value, v), v) == Without(value, v) + [v]
  {
  }

  /** options.find(o => o.value === val), as the index of the first match. */
  function FindIndex(options: seq<SelectOption>, val: string): (r: Option<nat>)
    ensures r.None? ==> forall i :: 0 <= i < |options| ==> options[i].value != val
    ensures r.Some? ==> r.value < |options| && options[r.value].value == val
    ensures r.Some? ==> forall j :: 0 <= j < r.value ==> options[j].value != val
  {
    if options == [] then None
    else if options[0].value == val then Some(0)
    else match FindIndex(options[1..], val)
      case None => None
      case Some(k) => Some(k + 1)
  }

  /** opt?.label || val: the first matching option's label, or the raw value when there is none or it is empty. */
  function ChipLabel(options: seq<SelectOption>, val: string): (r: string)
    ensures (forall i :: 0 <= i < |options| ==> options[i].value != val) ==> r == val
    ensures forall i :: 0 <= i < |options| && options[i].value == val &&
                        (forall j :: 0 <= j < i ==> options[j].value != val) ==>
                        r == if options[i].labelText == "" then val else options[i].labelText
  {
    match FindIndex(options, val)
    case None => val
    case Some(i) => if options[i].labelText == "" then val else options[i].labelText
  }

  /** The catalog page builds its options as { label: t, value: t }. */
  function FacetOptions(facets: seq<string>): (r: seq<SelectOption>)
    ensures |r| == |facets|
    ensures forall i :: 0 <= i < |r| ==> r[i].labelText == facets[i] && r[i].value == facets[i]
  {
    seq(|facets|, i requires 0 <= i < |facets| => SelectOption(facets[i], facets[i]))
  }

  /** On the catalog page every chip shows the selected value itself. */
  lemma FacetChipShowsValue(facets: seq<string>, val: string)
    ensures ChipLabel(FacetOptions(facets), val) == val
  {
    var options := FacetOptions(facets);
    match FindIndex(options, val)
    case None =>
    case Some(i) =>
      assert options[i].labelText == val;
  }
}
