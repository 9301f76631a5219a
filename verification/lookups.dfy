/**
 The lookup value written to the YAML file: two parallel lists built from the
 header row, one pairing each column name with its position and one pairing each
 position with its column name. Names are not deduplicated.
 */
module Lookups {

  /** `column_name_lookup` holds (name, index) pairs, `index_position_lookup` (index, name) pairs. */
  datatype HeaderLookups = HeaderLookups(
    columnNameLookup: seq<(string, nat)>,
    indexPositionLookup: seq<(nat, string)>)

  /** The headers paired with their positions, as `headers.iter().enumerate()` yields them. */
  function Enumerate(headers: seq<string>): (e: seq<(nat, string)>)
    ensures |e| == |headers|
    ensures forall i :: 0 <= i < |e| ==> e[i].0 == i && e[i].1 == headers[i]
  {
    seq(|headers|, i requires 0 <= i < |headers| => (i, headers[i]))
  }

  /** Every pair with its two components exchanged. */
  function Swap(e: seq<(nat, string)>): (s: seq<(string, nat)>)
    ensures |s| == |e|
    ensures forall i :: 0 <= i < |s| ==> s[i].0 == e[i].1 && s[i].1 == e[i].0
  {
    seq(|e|, i requires 0 <= i < |e| => (e[i].1, e[i].0))
  }

  /** The lookups `write_yaml` serialises for a header row. */
  function BuildLookups(headers: seq<string>): (l: HeaderLookups)
    ensures |l.columnNameLookup| == |headers| && |l.indexPositionLookup| == |headers|
    ensures forall i :: 0 <= i < |headers| ==> l.columnNameLookup[i] == (headers[i], i)
    ensures forall i :: 0 <= i < |headers| ==> l.indexPositionLookup[i] == (i, headers[i])
  {
    var e := Enumerate(headers);
    HeaderLookups(Swap(e), e)
  }

  /**
   The shape every lookup value built from some header row has: the two lists
   are equally long, the positions count up from 0, and each entry of one list is
   the swapped entry of the other.
   */
  predicate WellFormed(l: HeaderLookups)
  {
    && |l.columnNameLookup| == |l.indexPositionLookup|
    && (forall i :: 0 <= i < |l.indexPositionLookup| ==> l.indexPositionLookup[i].0 == i)
    && (forall i :: 0 <= i < |l.columnNameLookup| ==>
          l.columnNameLookup[i] == (l.indexPositionLookup[i].1, l.indexPositionLookup[i].0))
  }

  /** The column names a lookup value lists, in position order. */
  function Names(l: HeaderLookups): (names: seq<string>)
    ensures |names| == |l.indexPositionLookup|
  {
    seq(|l.indexPositionLookup|, i requires 0 <= i < |l.indexPositionLookup| => l.indexPositionLookup[i].1)
  }

  /** Built lookups are well formed and list exactly the header row they came from. */
  lemma BuildLookupsRecoversHeaders(headers: seq<string>)
    ensures WellFormed(BuildLookups(headers))
    ensures Names(BuildLookups(headers)) == headers
  {
  }

  /** Every well-formed lookup value is the one built from the names it lists. */
  lemma WellFormedIsBuilt(l: HeaderLookups)
    requires WellFormed(l)
    ensures BuildLookups(Names(l)) == l
  {
    var b := BuildLookups(Names(l));
    assert b.columnNameLookup == l.columnNameLookup;
    assert b.indexPositionLookup == l.indexPositionLookup;
  }

  /** Different header rows give different lookups, so nothing is merged away. */
  lemma BuildLookupsInjective(h1: seq<string>, h2: seq<string>)
    requires BuildLookups(h1) == BuildLookups(h2)
    ensures h1 == h2
  {
    BuildLookupsRecoversHeaders(h1);
    BuildLookupsRecoversHeaders(h2);
  }

  /** A name occurring at two positions gets one entry per position in both lists. */
  lemma DuplicatesKept(headers: seq<string>, i: nat, j: nat)
    requires i < j < |headers| && headers[i] == headers[j]
    ensures (headers[i], i) in BuildLookups(headers).columnNameLookup
    ensures (headers[j], j) in BuildLookups(headers).columnNameLookup
    ensures (i, headers[i]) in BuildLookups(headers).indexPositionLookup
    ensures (j, headers[j]) in BuildLookups(headers).indexPositionLookup
    ensures BuildLookups(headers).columnNameLookup[i] != BuildLookups(headers).columnNameLookup[j]
  {
    var l := BuildLookups(headers);
    assert l.columnNameLookup[i] == (headers[i], i);
    assert l.columnNameLookup[j] == (headers[j], j);
    assert l.indexPositionLookup[i] == (i, headers[i]);
    assert l.indexPositionLookup[j] == (j, headers[j]);
  }
}
