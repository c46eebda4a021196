/** The category service: list normalisation, the "NA" parent sentinel on
    creation, and single-item extraction. */
module CategoryService {
  import opened Js
  import opened TaskService

  datatype Category = Category(
    id: string,
    categoryName: string,
    parentCategoryName: string,
    createdAt: string,
    updatedAt: string)

  datatype CreateCategoryRequest = CreateCategoryRequest(categoryName: string, parentCategoryName: Option<string>)

  /** The body `createCategory` posts. */
  datatype CategoryBody = CategoryBody(categoryName: string, parentCategoryName: string)

  /** The parent name that stands for "no parent". */
  const NoParent := "NA"

  /** `{ ...data, parentCategoryName: data.parentCategoryName || 'NA' }`. */
  function CreateCategoryBody(req: CreateCategoryRequest): (body: CategoryBody)
    ensures body.categoryName == req.categoryName
    ensures Truthy(req.parentCategoryName) ==> body.parentCategoryName == req.parentCategoryName.value
    ensures !Truthy(req.parentCategoryName) ==> body.parentCategoryName == NoParent
    ensures body.parentCategoryName != ""
  {
    CategoryBody(req.categoryName, OrElse(req.parentCategoryName, NoParent))
  }

  /** `Array.isArray(data) ? data : [data]` in `getAllCategories`: the elements
      of an array, and otherwise the payload itself as the only element, even
      when it is null or undefined. */
  function CategoryList(data: Payload<Category>): (r: seq<Payload<Category>>)
    ensures data.Array? ==> |r| == |data.items| &&
                            forall i :: 0 <= i < |r| ==> r[i] == Object(data.items[i])
    ensures !data.Array? ==> r == [data]
  {
    match data
    case Array(items) => seq(|items|, i requires 0 <= i < |items| => Object(items[i]))
    case _ => [data]
  }

  /** Unlike the task list, which drops a null payload, the category list keeps
      it as a one-element list; on arrays and single records the two agree. */
  lemma CategoryListVersusTaskList(c: Category)
    ensures CategoryList(Null) == [Null] && TaskList(Null) == []
    ensures CategoryList(Undefined) == [Undefined]
    ensures CategoryList(Object(c)) == [Object(c)]
  {
  }

  /** A creation with no parent, or with an empty parent name, sends the "NA"
      sentinel; any other parent name is sent as given. */
  lemma SentinelOnlyForMissingParent(name: string, parent: string)
    ensures CreateCategoryBody(CreateCategoryRequest(name, None)).parentCategoryName == NoParent
    ensures CreateCategoryBody(CreateCategoryRequest(name, Some(""))).parentCategoryName == NoParent
    ensures parent != "" ==> CreateCategoryBody(CreateCategoryRequest(name, Some(parent))).parentCategoryName == parent
  {
  }
}
