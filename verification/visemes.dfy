/** The static viseme table of the avatar: cue symbols (one letter each, as
    they appear in a lip-sync cue track) mapped to morph-target names of the
    head mesh. */
module Visemes {
  import opened Wrappers

  /** The table's keys in declaration order. */
  const TableKeys: seq<string> := ["A", "B", "C", "D", "E", "F", "G", "H", "X"]

  /** The nine symbols the table knows. */
  const Symbols: set<string> := set s | s in TableKeys

  /** `corresponding[symbol]` as a channel name. `None` for any symbol that is
      not one of the nine keys: the lookup then gives `undefined`, or, for a
      name the object inherits (`toString`, `constructor`, ...), a function or
      object that names no morph target. Either way the dictionary lookup that
      follows gives `undefined`. */
  function Corresponding(symbol: string): (r: Option<string>)
    ensures r.Some? <==> symbol in Symbols
    ensures r.Some? ==> r.value in TableValues
  {
    match symbol
    case "A" => Some("viseme_PP")
    case "B" => Some("viseme_kk")
    case "C" => Some("viseme_I")
    case "D" => Some("viseme_AA")
    case "E" => Some("viseme_O")
    case "F" => Some("viseme_U")
    case "G" => Some("viseme_FF")
    case "H" => Some("viseme_TH")
    case "X" => Some("viseme_PP")
    case _ => None
  }

  /** `Object.values(corresponding)`: the table's values in key order,
      duplicates kept. */
  const TableValues: seq<string> :=
    ["viseme_PP", "viseme_kk", "viseme_I", "viseme_AA", "viseme_O",
     "viseme_U", "viseme_FF", "viseme_TH", "viseme_PP"]

  /** The table is defined for exactly the nine symbols, and A and X alias. */
  lemma TableDomain(symbol: string)
    ensures Corresponding(symbol).Some? <==> symbol in Symbols
    ensures Corresponding("A") == Corresponding("X") == Some("viseme_PP")
  {
  }

  /** The value list is the table read in key order: the i-th value is what the
      i-th key maps to, and the keys are exactly the nine symbols. */
  lemma ValuesFollowKeys()
    ensures |TableValues| == |TableKeys|
    ensures forall i :: 0 <= i < |TableKeys| ==> Corresponding(TableKeys[i]) == Some(TableValues[i])
    ensures forall s :: s in Symbols <==> s in TableKeys
  {
    forall i | 0 <= i < |TableKeys|
      ensures Corresponding(TableKeys[i]) == Some(TableValues[i])
    {
      if i == 0 {} else if i == 1 {} else if i == 2 {} else if i == 3 {}
      else if i == 4 {} else if i == 5 {} else if i == 6 {} else if i == 7 {}
      else {}
    }
  }

  /** "viseme_PP" occurs twice in the value list, every other channel once. */
  lemma ValueMultiplicities()
    ensures multiset(TableValues)["viseme_PP"] == 2
    ensures forall v :: v in TableValues && v != "viseme_PP" ==> multiset(TableValues)[v] == 1
  {
    OnlyPPRepeats();
    EndsTwiceOthersOnce(TableValues, "viseme_PP");
  }

  /** Two positions of the value list hold the same name only when they are
      the first and the last, both "viseme_PP". */
  lemma OnlyPPRepeats()
    ensures forall i, j :: 0 <= i < j < |TableValues| && TableValues[i] == TableValues[j] ==> i == 0 && j == 8
  {
  }

  /** In a list whose only repeated positions are the first and the last,
      the end element occurs twice and every other element once. */
  lemma EndsTwiceOthersOnce<T>(xs: seq<T>, ends: T)
    requires |xs| >= 2 && xs[0] == xs[|xs| - 1] == ends
    requires forall i, j :: 0 <= i < j < |xs| && xs[i] == xs[j] ==> i == 0 && j == |xs| - 1
    ensures multiset(xs)[ends] == 2
    ensures forall v :: v in xs && v != ends ==> multiset(xs)[v] == 1
  {
    var mid := xs[1..|xs| - 1];
    assert xs == [ends] + mid + [ends];
    assert ends !in mid by {
      forall k | 0 <= k < |mid| ensures mid[k] != ends {
        assert mid[k] == xs[k + 1];
      }
    }
    forall v | v in xs && v != ends
      ensures multiset(xs)[v] == 1
    {
      var i :| 0 <= i < |xs| && xs[i] == v;
      CountOfUnique(xs, i);
    }
  }

  /** An element that occurs at one position only occurs once. */
  lemma CountOfUnique<T>(xs: seq<T>, i: nat)
    requires i < |xs| && forall j :: 0 <= j < |xs| && j != i ==> xs[j] != xs[i]
    ensures multiset(xs)[xs[i]] == 1
  {
    assert xs == xs[..i] + [xs[i]] + xs[i + 1..];
    assert xs[i] !in xs[..i];
    assert xs[i] !in xs[i + 1..];
  }
}
