/**
 * The state of the posts list component: the list shown, the create/edit
 * form and the loading flag, updated by the create, update, delete and
 * start-edit handlers after the API answers. Rendering is not modelled.
 */
module PostsListClient {
  import opened Wrappers
  import opened Lists
  import opened Users
  import opened PostRoutes

  /** How a `fetch` ended: an ok response and its `data`, a non-ok response, or a thrown error. */
  datatype Outcome<T> = Ok(data: T) | NotOk | Threw

  /** A request the component sent to the posts API. */
  datatype ApiCall =
    | CreateCall(title: string, content: string)
    | UpdateCall(id: string, title: string, content: string)
    | DeleteCall(id: string)

  /** The edit and delete controls of a post are shown only to its author. */
  predicate CanModify(user: Option<PublicUser>, p: Post) {
    user.Some? && user.value.id == p.authorId
  }

  /**
   * The server's ownership gate agrees with the controls: for a post of the
   * table, the author passes it and anybody else gets 403.
   */
  lemma ControlsMatchOwnerGate(uuid: string -> Option<string>, table: seq<Post>, k: nat, user: PublicUser)
    requires UniqueIds(uuid, table) && k < |table|
    ensures CanModify(Some(user), table[k]) ==> OwnerGate(uuid, table, table[k].id, user.id).None?
    ensures !CanModify(Some(user), table[k]) ==>
      OwnerGate(uuid, table, table[k].id, user.id) == Some(Error(403, "Not authorized"))
  {
    FindPostUnique(uuid, table, k, table[k].id);
  }

  class PostsListView {
    var posts: seq<Post>
    var isCreating: bool
    var editingId: Option<string>
    var title: string
    var content: string
    var isLoading: bool
    /** The API requests sent so far. */
    var sent: seq<ApiCall>

    constructor (initialPosts: seq<Post>)
      ensures posts == initialPosts && !isCreating && editingId.None?
      ensures title == "" && content == "" && !isLoading && sent == []
    {
      posts := initialPosts;
      isCreating := false;
      editingId := None;
      title := "";
      content := "";
      isLoading := false;
      sent := [];
    }

    /** `handleCreate`: post the form; on success show the new post first and close the form. */
    method HandleCreate(token: Option<string>, res: Outcome<Post>)
      modifies this
      ensures !Truthy(token) ==>
        posts == old(posts) && isCreating == old(isCreating) && title == old(title)
        && content == old(content) && isLoading == old(isLoading) && sent == old(sent)
      ensures Truthy(token) ==>
        sent == old(sent) + [CreateCall(old(title), old(content))] && !isLoading
        && if res.Ok? then
             posts == [res.data] + old(posts) && title == "" && content == "" && !isCreating
           else
             posts == old(posts) && title == old(title) && content == old(content)
             && isCreating == old(isCreating)
      ensures editingId == old(editingId)
    {
      if !Truthy(token) {
        return;
      }
      isLoading := true;
      sent := sent + [CreateCall(title, content)];
      if res.Ok? {
        posts := [res.data] + posts;
        title := "";
        content := "";
        isCreating := false;
      }
      isLoading := false;
    }

    /** `handleUpdate(id)`: put the form; on success replace the post with that id and close the editor. */
    method HandleUpdate(id: string, token: Option<string>, res: Outcome<Post>)
      modifies this
      ensures !Truthy(token) ==>
        posts == old(posts) && editingId == old(editingId) && title == old(title)
        && content == old(content) && isLoading == old(isLoading) && sent == old(sent)
      ensures Truthy(token) ==>
        sent == old(sent) + [UpdateCall(id, old(title), old(content))] && !isLoading
        && if res.Ok? then
             posts == ReplaceWhere(old(posts), IdIs(id), res.data)
             && editingId.None? && title == "" && content == ""
           else
             posts == old(posts) && editingId == old(editingId)
             && title == old(title) && content == old(content)
      ensures isCreating == old(isCreating)
    {
      if !Truthy(token) {
        return;
      }
      isLoading := true;
      sent := sent + [UpdateCall(id, title, content)];
      if res.Ok? {
        posts := ReplaceWhere(posts, IdIs(id), res.data);
        editingId := None;
        title := "";
        content := "";
      }
      isLoading := false;
    }

    /** `handleDelete(id)`, after the confirmation dialog: on success drop every post with that id. */
    method HandleDelete(id: string, token: Option<string>, confirmed: bool, res: Outcome<()>)
      modifies this
      ensures !Truthy(token) || !confirmed ==> posts == old(posts) && sent == old(sent)
      ensures Truthy(token) && confirmed ==>
        sent == old(sent) + [DeleteCall(id)]
        && posts == if res.Ok? then Filter(old(posts), IdIsNot(id)) else old(posts)
      ensures isCreating == old(isCreating) && editingId == old(editingId) && title == old(title)
      ensures content == old(content) && isLoading == old(isLoading)
    {
      if !Truthy(token) || !confirmed {
        return;
      }
      sent := sent + [DeleteCall(id)];
      if res.Ok? {
        posts := Filter(posts, IdIsNot(id));
      }
    }

    /** `startEdit(p)`: open the editor on `p` with its title and content. */
    method StartEdit(p: Post)
      modifies this
      ensures editingId == Some(p.id) && title == p.title && content == p.content
      ensures posts == old(posts) && isCreating == old(isCreating)
      ensures isLoading == old(isLoading) && sent == old(sent)
    {
      editingId := Some(p.id);
      title := p.title;
      content := p.content;
    }
  }
}
