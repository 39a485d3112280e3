/** The comment schemas: the one content constraint shared by
    `CommentCreate` and `CommentUpdate`, the stored comment row, and the
    input rewrite `Comment.model_validate` performs before validating. */
module CommentSchema {
  import opened Common

  const MinContentLength := 1

  /** A validated `CommentCreate` (and `CommentUpdate`: both add nothing to
      `CommentBase`). */
  datatype CommentCreate = CommentCreate(content: string)

  /** A stored comment row (`CommentInDBBase`). */
  datatype Comment = Comment(
    id: int,
    content: string,
    taskId: int,
    userId: int,
    createdAt: Timestamp,
    updatedAt: Option<Timestamp>)

  /** The primary key of a comment row. */
  function CommentId(c: Comment): int {
    c.id
  }

  predicate ValidCreate(c: CommentCreate) {
    |c.content| >= MinContentLength
  }

  predicate ValidComment(c: Comment) {
    |c.content| >= MinContentLength
  }

  /** Pydantic's validation of `{"content": ...}` as `CommentBase`: the key
      is required, not nullable, and at least one character long. */
  function Parse(content: Json<string>): (r: Option<CommentCreate>)
    ensures r.Some? <==> content.Given? && content.value != []
    ensures r.Some? ==> ValidCreate(r.value) && r.value.content == content.value
  {
    if content.Given? && |content.value| >= MinContentLength
    then Some(CommentCreate(content.value))
    else None
  }

  // ---------------------------------------------------------------------------
  // Comment.model_validate
  // ---------------------------------------------------------------------------

  /** A Python value as `model_validate` may receive it. A dict is an object
      that can be changed in place; `UserModel` is what
      `User.model_validate` turns a dict into. */
  datatype PyValue =
    | Scalar(text: string)
    | DictRef(dict: PyDict)
    | UserModel(fields: map<string, PyValue>)

  class PyDict {
    var entries: map<string, PyValue>

    constructor (entries: map<string, PyValue>)
      ensures this.entries == entries
    {
      this.entries := entries;
    }
  }

  /** Whether `model_validate` rewrites the input: it is a dict whose
      `author` entry is itself a dict. */
  predicate HasAuthorDict(obj: PyValue)
    reads if obj.DictRef? then {obj.dict} else {}
  {
    obj.DictRef? && "author" in obj.dict.entries && obj.dict.entries["author"].DictRef?
  }

  /** The rewrite `Comment.model_validate` applies to its input in place
      before handing it to the base class: `obj['author']` becomes the user
      model built from the author dict; any other input is left alone. */
  method RewriteAuthor(obj: PyValue)
    modifies if obj.DictRef? then {obj.dict} else {}
    ensures old(HasAuthorDict(obj)) ==>
      obj.dict.entries == old(obj.dict.entries)["author" := UserModel(old(obj.dict.entries["author"].dict.entries))]
    ensures !old(HasAuthorDict(obj)) && obj.DictRef? ==> obj.dict.entries == old(obj.dict.entries)
  {
    if obj.DictRef? && "author" in obj.dict.entries && obj.dict.entries["author"].DictRef? {
      var author := obj.dict.entries["author"].dict;
      obj.dict.entries := obj.dict.entries["author" := UserModel(author.entries)];
    }
  }
}
