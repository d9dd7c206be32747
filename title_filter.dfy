/**
 * The search screen's title filter: with a non-empty query, the master list
 * keeps the entries whose upper-cased title contains the upper-cased query;
 * with an empty query it is the master list itself.
 */
module TitleFilter {
  import opened JsString
  import opened Catalog

  /** `a` can be obtained from `b` by deleting elements: same order, nothing added. */
  ghost predicate IsSubsequence<T>(a: seq<T>, b: seq<T>)
    decreases |b|
  {
    a == [] || (b != [] && ((a[0] == b[0] && IsSubsequence(a[1..], b[1..])) || IsSubsequence(a, b[1..])))
  }

  /** Every list is a subsequence of itself. */
  lemma {:induction false} IsSubsequenceReflexive<T>(s: seq<T>)
    ensures IsSubsequence(s, s)
    decreases |s|
  {
    if s != [] {
      IsSubsequenceReflexive(s[1..]);
    }
  }

  /** The text compared for an entry: a missing or empty title counts as ''. */
  function TitleText(title: Field<string>): string
  {
    if title.Present? then title.value else ""
  }

  /** The predicate handed to `Array.filter`: the upper-cased title contains the upper-cased query. */
  predicate Matches(item: Anime, text: string)
    ensures Matches(item, text) <==> Includes(ToUpperCase(TitleText(item.title)), ToUpperCase(text))
  {
    IndexOf(ToUpperCase(TitleText(item.title)), ToUpperCase(text)) > -1
  }

  /**
   * `master.filter(item => Matches(item, text))`: the entries that match, in
   * master order, each as often as it occurs in the master list.
   */
  function Filter(master: seq<Anime>, text: string): (r: seq<Anime>)
    ensures IsSubsequence(r, master)
    ensures forall x :: x in r <==> x in master && Matches(x, text)
    ensures forall x :: multiset(r)[x] == if Matches(x, text) then multiset(master)[x] else 0
  {
    if master == [] then []
    else
      var rest := Filter(master[1..], text);
      assert master == [master[0]] + master[1..];
      if Matches(master[0], text) then
        assert ([master[0]] + rest)[1..] == rest;
        [master[0]] + rest
      else rest
  }

  /**
   * The list shown for the query `text`: the master list itself when the query
   * is empty, its title matches otherwise.
   */
  function SearchFilter(master: seq<Anime>, text: string): (r: seq<Anime>)
    ensures text == "" ==> r == master
    ensures IsSubsequence(r, master)
    ensures forall x :: x in r <==> x in master && Matches(x, text)
    ensures forall x :: multiset(r)[x] == if Matches(x, text) then multiset(master)[x] else 0
  {
    if text != "" then Filter(master, text)
    else
      IsSubsequenceReflexive(master);
      master
  }

  /**
   * With a non-empty query, an entry is shown exactly when it is in the master
   * list and its upper-cased title has the upper-cased query as a substring.
   */
  lemma SearchFilterMembership(master: seq<Anime>, text: string, x: Anime)
    requires text != ""
    ensures x in SearchFilter(master, text) <==>
              x in master && Includes(ToUpperCase(TitleText(x.title)), ToUpperCase(text))
  {
  }

  /** The empty query matches every title, so the empty-query branch agrees with filtering. */
  lemma {:induction false} FilterEmptyQueryKeepsAll(master: seq<Anime>)
    ensures Filter(master, "") == master
    decreases |master|
  {
    if master != [] {
      assert OccursAt(ToUpperCase(TitleText(master[0].title)), "", 0);
      FilterEmptyQueryKeepsAll(master[1..]);
    }
  }

  /** An entry whose title is missing or empty never matches a non-empty query. */
  lemma UntitledNeverMatches(master: seq<Anime>, text: string, x: Anime)
    requires text != "" && TitleText(x.title) == ""
    ensures x !in SearchFilter(master, text)
  {
    var q := ToUpperCase(text);
    assert ToUpperCase("") == "";
    forall i
      ensures !OccursAt("", q, i)
    {
    }
  }

  /** Two queries that differ only in the case of their letters give the same filter. */
  lemma {:induction false} FilterIgnoresQueryCase(master: seq<Anime>, t1: string, t2: string)
    requires ToUpperCase(t1) == ToUpperCase(t2)
    ensures Filter(master, t1) == Filter(master, t2)
    decreases |master|
  {
    if master != [] {
      FilterIgnoresQueryCase(master[1..], t1, t2);
    }
  }

  /** Searching is case-insensitive: queries equal up to letter case show the same list. */
  lemma SearchFilterIgnoresQueryCase(master: seq<Anime>, t1: string, t2: string)
    requires ToUpperCase(t1) == ToUpperCase(t2)
    ensures SearchFilter(master, t1) == SearchFilter(master, t2)
  {
    assert |t1| == |t2|;
    if t1 != "" {
      FilterIgnoresQueryCase(master, t1, t2);
    }
  }

  /** The upper-cased query "blea" is "BLEA". */
  lemma UpperBlea()
    ensures ToUpperCase("blea") == "BLEA"
  {
    var u := ToUpperCase("blea");
    assert u[0] == 'B' && u[1] == 'L' && u[2] == 'E' && u[3] == 'A';
  }

  /** A title "Bleach" matches the query "blea". */
  lemma BleachMatchesBlea(bleach: Anime)
    requires bleach.title == Present("Bleach")
    ensures Matches(bleach, "blea")
  {
    UpperBlea();
    var u := ToUpperCase("Bleach");
    assert u[0] == 'B' && u[1] == 'L' && u[2] == 'E' && u[3] == 'A';
    assert OccursAt(u, "BLEA", 0);
  }

  /** A title "Naruto" does not match the query "blea". */
  lemma NarutoMissesBlea(naruto: Anime)
    requires naruto.title == Present("Naruto")
    ensures !Matches(naruto, "blea")
  {
    UpperBlea();
    var u := ToUpperCase("Naruto");
    assert u[0] == 'N' && u[1] == 'A' && u[2] == 'R' && u[3] == 'U' && u[4] == 'T' && u[5] == 'O';
    assert u == "NARUTO";
    forall i
      ensures !OccursAt(u, "BLEA", i)
    {
    }
  }

  /** "blea" picks "Bleach" out of "Bleach" and "Naruto". */
  lemma SearchBleach(bleach: Anime, naruto: Anime)
    requires bleach.title == Present("Bleach") && naruto.title == Present("Naruto")
    ensures SearchFilter([bleach, naruto], "blea") == [bleach]
  {
    BleachMatchesBlea(bleach);
    NarutoMissesBlea(naruto);
    assert [naruto][1..] == [];
    assert Filter([naruto], "blea") == [];
    assert [bleach, naruto][1..] == [naruto];
  }
}
