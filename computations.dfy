/** `src/data/computations.ts`: the fixed list of computation kinds. */
module Computations {
  import opened Wrappers
  import opened Registry

  const ComputationCategories: seq<Category> := [
    Category("dft", "Density Functional Theory", Some("Calculations based on DFT."), None),
    Category("qc", "Quantum Chemistry", Some("Quantum chemistry methods."), None),
    Category("md", "Molecular Dynamics", Some("Simulations of molecular motion."), None)
  ]

  function GetComputationCategories(): seq<Category> {
    ComputationCategories
  }

  /** `getComputationCategoryById`: the listed entry with that id, `None` for
      any id that is not listed. */
  function GetComputationCategoryById(id: string): (r: Option<Category>)
    ensures r.Some? ==> r.value in ComputationCategories && r.value.id == id
    ensures r.None? <==> id !in ["dft", "qc", "md"]
  {
    assert Ids(ComputationCategories) == ["dft", "qc", "md"];
    FindById(ComputationCategories, id)
  }

  /** The registry is dft, qc, md in that order; the ids are distinct and
      every entry is described. */
  lemma ComputationRegistry()
    ensures Ids(GetComputationCategories()) == ["dft", "qc", "md"]
    ensures DistinctIds(GetComputationCategories())
    ensures forall c :: c in GetComputationCategories() ==> c.description.Some?
  {
    assert Ids(ComputationCategories) == ["dft", "qc", "md"];
  }

  /** Each listed id finds its own entry. */
  lemma ComputationLookup()
    ensures forall i :: 0 <= i < |ComputationCategories| ==>
      GetComputationCategoryById(ComputationCategories[i].id) == Some(ComputationCategories[i])
  {
    ComputationRegistry();
    forall i | 0 <= i < |ComputationCategories|
      ensures GetComputationCategoryById(ComputationCategories[i].id) == Some(ComputationCategories[i])
    {
      FindListed(ComputationCategories, i);
    }
  }
}
