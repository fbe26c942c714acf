/**
 * The categories module of the front-end store (src/store/modules/categories.js):
 * the category list, the lookups by id and the list mutations. The
 * asynchronous actions and the loading and error slots are not part of this
 * model.
 */
module CategoriesStore {
  import opened Common
  import opened StoreLists

  /** The fields of a category object besides its id. */
  datatype CategoryFields = CategoryFields(name: string, sortOrder: int)

  class CategoriesState {
    var categories: seq<Record<CategoryFields>>

    constructor ()
      ensures categories == []
    {
      categories := [];
    }

    /** getCategoryById: the first category with the id. */
    function GetCategoryById(id: int): (r: Option<Record<CategoryFields>>)
      reads this
      ensures r.None? <==> Absent(categories, id)
      ensures r.Some? ==> r.value.id == id && r.value in categories
    {
      Find(categories, id)
    }

    /** getCategoryName: the first matching category's name, '' when none matches. */
    function GetCategoryName(id: int): (name: string)
      reads this
      ensures Absent(categories, id) ==> name == ""
      ensures !Absent(categories, id) ==>
        exists i :: 0 <= i < |categories| && categories[i].id == id && categories[i].body.name == name
                    && forall k :: 0 <= k < i ==> categories[k].id != id
    {
      match GetCategoryById(id)
      case None => ""
      case Some(category) => category.body.name
    }

    /** SET_CATEGORIES: the whole list is replaced. */
    method SetCategories(list: seq<Record<CategoryFields>>)
      modifies this
      ensures categories == list
    {
      categories := list;
    }

    /** ADD_CATEGORY: pushed at the end. */
    method AddCategory(category: Record<CategoryFields>)
      modifies this
      ensures categories == old(categories) + [category]
      ensures GetCategoryById(category.id) ==
        if Absent(old(categories), category.id) then Some(category) else old(GetCategoryById(category.id))
    {
      categories := categories + [category];
      FindAfterAppend(old(categories), category, category.id);
    }

    /** UPDATE_CATEGORY: the first entry with the id is replaced in place; no entry, no change. */
    method UpdateCategory(updated: Record<CategoryFields>)
      modifies this
      ensures ReplacedFirst(old(categories), categories, updated)
      ensures !Absent(old(categories), updated.id) ==> GetCategoryName(updated.id) == updated.body.name
    {
      var index := FindIndex(categories, updated.id);
      if index != -1 {
        categories := categories[..index] + [updated] + categories[index + 1..];
        FindAfterReplace(old(categories), categories, updated);
      }
    }

    /** REMOVE_CATEGORY: every entry with the id goes, the rest keep their order. */
    method RemoveCategory(id: int)
      modifies this
      ensures categories == Without(old(categories), id)
      ensures GetCategoryName(id) == ""
    {
      categories := Without(categories, id);
    }
  }
}
