/** `src/data/packages.ts`: the fixed list of software packages. */
module Packages {
  import opened Wrappers
  import opened Registry

  const PackageCategories: seq<Category> := [
    Category("abinit", "Abinit", Some("Abinit DFT software."), Some("v9.10.3")),
    Category("orca", "Orca", Some("Orca quantum chemistry program."), Some("6.0")),
    Category("gaussian", "Gaussian", Some("Gaussian quantum chemistry software."), Some("16"))
  ]

  function GetPackageCategories(): seq<Category> {
    PackageCategories
  }

  /** `getPackageCategoryById`: the listed entry with that id, `None` for any
      other id (the empty string and `'all'` among them). */
  function GetPackageCategoryById(id: string): (r: Option<Category>)
    ensures r.Some? ==> r.value in PackageCategories && r.value.id == id
    ensures r.None? <==> id !in ["abinit", "orca", "gaussian"]
  {
    assert Ids(PackageCategories) == ["abinit", "orca", "gaussian"];
    FindById(PackageCategories, id)
  }

  /** The registry is abinit, orca, gaussian in that order; the ids are
      distinct; every entry has a version and a description. */
  lemma PackageRegistry()
    ensures Ids(GetPackageCategories()) == ["abinit", "orca", "gaussian"]
    ensures DistinctIds(GetPackageCategories())
    ensures forall c :: c in GetPackageCategories() ==> c.version.Some? && c.description.Some?
  {
    assert Ids(PackageCategories) == ["abinit", "orca", "gaussian"];
  }

  /** Each listed id finds its own entry; `''` and `'all'` find nothing. */
  lemma PackageLookup()
    ensures forall i :: 0 <= i < |PackageCategories| ==>
      GetPackageCategoryById(PackageCategories[i].id) == Some(PackageCategories[i])
    ensures GetPackageCategoryById("") == None && GetPackageCategoryById("all") == None
  {
    PackageRegistry();
    forall i | 0 <= i < |PackageCategories|
      ensures GetPackageCategoryById(PackageCategories[i].id) == Some(PackageCategories[i])
    {
      FindListed(PackageCategories, i);
    }
  }
}
