/** What the four category registries (under `src/data/`) have in common: a
    record with an id, a name and optional description and version, and
    lookup by id with `find`. */
module Registry {
  import opened Wrappers
  import Seqs

  /** `ComputationCategory`, `PackageCategory`, `TypeCategory` and
      `ProjectCategory` in one shape; only packages carry a version. */
  datatype Category = Category(
    id: string,
    name: string,
    description: Option<string>,
    version: Option<string>)

  function Ids(cs: seq<Category>): (ids: seq<string>)
    ensures |ids| == |cs|
  {
    seq(|cs|, i requires 0 <= i < |cs| => cs[i].id)
  }

  predicate DistinctIds(cs: seq<Category>) {
    forall i, j :: 0 <= i < j < |cs| ==> cs[i].id != cs[j].id
  }

  /** `cs.find(c => c.id === id)`. */
  function FindById(cs: seq<Category>, id: string): (r: Option<Category>)
    ensures r.Some? ==> r.value in cs && r.value.id == id
    ensures r.Some? ==> exists i :: 0 <= i < |cs| && cs[i] == r.value && forall k :: 0 <= k < i ==> cs[k].id != id
    ensures r.None? <==> id !in Ids(cs)
  {
    var r := Seqs.Find(cs, (c: Category) => c.id == id);
    assert id in Ids(cs) ==> r.Some? by {
      if id in Ids(cs) {
        var i :| 0 <= i < |cs| && Ids(cs)[i] == id;
        assert cs[i] in cs && cs[i].id == id;
      }
    }
    assert r.Some? ==> id in Ids(cs) by {
      if r.Some? {
        var k :| 0 <= k < |cs| && cs[k] == r.value;
        assert Ids(cs)[k] == id;
      }
    }
    r
  }

  /** With distinct ids, looking up a listed id finds exactly its entry. */
  lemma FindListed(cs: seq<Category>, i: nat)
    requires DistinctIds(cs) && i < |cs|
    ensures FindById(cs, cs[i].id) == Some(cs[i])
  {
    var r := FindById(cs, cs[i].id);
    assert Ids(cs)[i] == cs[i].id;
    assert forall k :: 0 <= k < |cs| && k != i ==> cs[k].id != cs[i].id by {
      forall k | 0 <= k < |cs| && k != i ensures cs[k].id != cs[i].id {
        if k < i { assert cs[k].id != cs[i].id; } else { assert cs[i].id != cs[k].id; }
      }
    }
    var j :| 0 <= j < |cs| && cs[j] == r.value;
  }

  /** `lookup(id)?.name || id`: how the list view and the reports show a
      registry reference, falling back to the raw id when the lookup misses
      or the name is empty. */
  function NameOrId(cs: seq<Category>, id: string): (r: string)
    ensures id !in Ids(cs) ==> r == id
    ensures DistinctIds(cs) ==>
      forall i :: 0 <= i < |cs| && cs[i].id == id && cs[i].name != "" ==> r == cs[i].name
  {
    var found := FindById(cs, id);
    assert DistinctIds(cs) ==> forall i :: 0 <= i < |cs| && cs[i].id == id ==> found == Some(cs[i]) by {
      if DistinctIds(cs) {
        forall i | 0 <= i < |cs| && cs[i].id == id ensures found == Some(cs[i]) {
          FindListed(cs, i);
        }
      }
    }
    if found.Some? && found.value.name != "" then found.value.name else id
  }
}
