/** `src/data/types.ts`: the fixed list of run types. */
module RunTypes {
  import opened Wrappers
  import opened Registry

  const TypeCategories: seq<Category> := [
    Category("single_point", "Single Point", Some("Single point energy calculation."), None),
    Category("struct_opt", "Structural Optimization", Some("Geometry optimization."), None),
    Category("vars_test", "Variables Test", Some("Testing calculation variables."), None),
    Category("band_struct", "Band Structure", Some("Electronic band structure calculation."), None),
    Category("multi_data", "Multiple Datasets", Some("Calculations involving multiple datasets."), None),
    Category("dft_u", "DFT+U", Some("DFT with Hubbard U correction."), None)
  ]

  function GetTypeCategories(): seq<Category> {
    TypeCategories
  }

  /** `getTypeCategoryById`: the listed entry with that id, `None` for any
      other id. */
  function GetTypeCategoryById(id: string): (r: Option<Category>)
    ensures r.Some? ==> r.value in TypeCategories && r.value.id == id
    ensures r.None? <==> id !in ["single_point", "struct_opt", "vars_test", "band_struct", "multi_data", "dft_u"]
  {
    assert Ids(TypeCategories) == ["single_point", "struct_opt", "vars_test", "band_struct", "multi_data", "dft_u"];
    FindById(TypeCategories, id)
  }

  /** The registry holds the six run types in source order; the ids are
      distinct and every entry is described. */
  lemma TypeRegistry()
    ensures Ids(GetTypeCategories()) ==
      ["single_point", "struct_opt", "vars_test", "band_struct", "multi_data", "dft_u"]
    ensures DistinctIds(GetTypeCategories())
    ensures forall c :: c in GetTypeCategories() ==> c.description.Some?
  {
    var ids := Ids(TypeCategories);
    assert ids == ["single_point", "struct_opt", "vars_test", "band_struct", "multi_data", "dft_u"];
    assert forall i :: 0 <= i < |ids| ==> ids[i] == TypeCategories[i].id;
    assert ids[0][1] == 'i' && ids[1][1] == 't';
    forall i, j | 0 <= i < j < |ids| ensures ids[i] != ids[j] {
      assert ids[i][0] != ids[j][0] || (i == 0 && j == 1);
    }
  }

  /** Each listed id finds its own entry. */
  lemma TypeLookup()
    ensures forall i :: 0 <= i < |TypeCategories| ==>
      GetTypeCategoryById(TypeCategories[i].id) == Some(TypeCategories[i])
  {
    TypeRegistry();
    forall i | 0 <= i < |TypeCategories|
      ensures GetTypeCategoryById(TypeCategories[i].id) == Some(TypeCategories[i])
    {
      FindListed(TypeCategories, i);
    }
  }
}
