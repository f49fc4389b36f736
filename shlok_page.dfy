/** The shlok page's archive search: a case-insensitive substring match on the
    verse's Sanskrit, Hindi and English text and its source. */
module ShlokPage {
  import opened Seqs
  import opened Text

  /** A verse of the archive. */
  datatype Shlok = Shlok(Id: int, sanskrit: string, hindi: string, english: string, source: string)

  /** The verse matches a search term already lower-cased. */
  predicate MatchesLowered(needle: string, shlok: Shlok)
  {
    Contains(Lower(shlok.sanskrit), needle) || Contains(Lower(shlok.hindi), needle) ||
    Contains(Lower(shlok.english), needle) || Contains(Lower(shlok.source), needle)
  }

  function Matching(needle: string): Shlok -> bool
  {
    (shlok: Shlok) => MatchesLowered(needle, shlok)
  }

  /** `filteredShlokas`: the archive verses one of whose four texts, lower-cased,
      contains the lower-cased term. */
  function FilteredShlokas(archive: seq<Shlok>, searchTerm: string): (r: seq<Shlok>)
    ensures forall i :: 0 <= i < |r| ==> r[i] in archive && MatchesLowered(Lower(searchTerm), r[i])
    ensures forall i :: 0 <= i < |archive| && MatchesLowered(Lower(searchTerm), archive[i]) ==> archive[i] in r
    ensures IsSubsequence(r, archive)
  {
    var kept := Filter(archive, Matching(Lower(searchTerm)));
    FilterMembers(archive, Matching(Lower(searchTerm)));
    FilterSubsequence(archive, Matching(Lower(searchTerm)));
    assert forall i :: 0 <= i < |kept| ==> Matching(Lower(searchTerm))(kept[i]);
    kept
  }

  /** Every string contains the empty string at its start. */
  lemma ContainsEmpty(s: string)
    ensures Contains(s, "")
  {
    assert s[..0] == "";
  }

  /** An empty search keeps the whole archive. */
  lemma EmptySearchKeepsAll(archive: seq<Shlok>)
    ensures FilteredShlokas(archive, "") == archive
  {
    forall i | 0 <= i < |archive|
      ensures Matching(Lower(""))(archive[i])
    {
      ContainsEmpty(Lower(archive[i].sanskrit));
    }
    FilterKeepsAll(archive, Matching(Lower("")));
  }

  lemma LowerOfCaseChange(c: char)
    ensures LowerChar(UpperChar(c)) == LowerChar(c)
    ensures LowerChar(LowerChar(c)) == LowerChar(c)
  {
  }

  /** Changing the case of the search term does not change the result. */
  lemma SearchIgnoresCase(archive: seq<Shlok>, searchTerm: string)
    ensures FilteredShlokas(archive, Upper(searchTerm)) == FilteredShlokas(archive, searchTerm)
    ensures FilteredShlokas(archive, Lower(searchTerm)) == FilteredShlokas(archive, searchTerm)
  {
    forall i | 0 <= i < |searchTerm|
      ensures Lower(Upper(searchTerm))[i] == Lower(searchTerm)[i]
      ensures Lower(Lower(searchTerm))[i] == Lower(searchTerm)[i]
    {
      LowerOfCaseChange(searchTerm[i]);
    }
    assert Lower(Upper(searchTerm)) == Lower(searchTerm);
    assert Lower(Lower(searchTerm)) == Lower(searchTerm);
  }
}
