/** `src/data/projects.ts`: the static project list (empty: every project is
    added by the user and kept in browser storage) and lookup by id, in the
    supplied list when there is one. */
module Projects {
  import opened Wrappers
  import opened Registry

  const ProjectCategories: seq<Category> := []

  /** `getProjectCategories`: the static list, which is empty. */
  function GetProjectCategories(): (r: seq<Category>)
    ensures r == []
  {
    ProjectCategories
  }

  /** `getProjectCategoryById(id, allProjects?)`. A supplied list (even an
      empty one, since an array is truthy) is searched instead of the static
      list; without one the static list is searched. A found project is the
      first one in the supplied list with the queried id. */
  function GetProjectCategoryById(id: string, allProjects: Option<seq<Category>>): (r: Option<Category>)
    ensures allProjects.None? ==> r == None
    ensures r.Some? ==> r.value.id == id
    ensures allProjects.Some? && r.Some? ==>
      exists i :: 0 <= i < |allProjects.value| && allProjects.value[i] == r.value &&
        forall k :: 0 <= k < i ==> allProjects.value[k].id != id
    ensures allProjects.Some? && r.None? <==> allProjects.Some? && id !in Ids(allProjects.value)
  {
    if allProjects.Some? then FindById(allProjects.value, id)
    else FindById(ProjectCategories, id)
  }
}
