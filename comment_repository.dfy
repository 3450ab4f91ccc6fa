/**
 * `CommentRepository`: the `Comments` table held in memory as a sequence of
 * rows, with ids assigned on insertion like the stock table's.
 */
module CommentRepository {
  import opened Wrappers
  import opened Models
  import opened KeyedTable

  class CommentRepository {
    var comments: seq<Comment>
    var nextId: int

    /** Ids are unique and below the next identity value, which starts at 1. */
    ghost predicate Valid()
      reads this
    {
      UniqueKeys(comments, CommentKey)
      && 1 <= nextId
      && forall i :: 0 <= i < |comments| ==> 1 <= comments[i].id < nextId
    }

    constructor ()
      ensures Valid() && comments == [] && nextId == 1
    {
      comments := [];
      nextId := 1;
    }

    /** `GetAllAsync()`: every stored comment, in table order. */
    function GetAllAsync(): (r: seq<Comment>)
      reads this
      ensures |r| == |comments|
      ensures forall i :: 0 <= i < |r| ==> r[i] == comments[i]
    {
      comments
    }

    /** `GetByIdAsync(id)`: the comment whose `Id` is `id`, or null. */
    function GetByIdAsync(id: int): (r: Option<Comment>)
      reads this
      ensures r.Some? ==> r.value in comments && r.value.id == id
      ensures r.None? <==> forall c :: c in comments ==> c.id != id
    {
      Find(comments, CommentKey, id)
    }

    /**
     * `CreateAsync(comment)`: a new comment, whose `Id` is still 0, is
     * appended under the id the identity column assigns; the table grows by one.
     */
    method CreateAsync(comment: Comment) returns (created: Comment)
      requires Valid()
      requires comment.id == 0
      modifies this
      ensures Valid()
      ensures created == comment.(id := old(nextId))
      ensures old(GetByIdAsync(created.id)).None?
      ensures comments == old(comments) + [created]
      ensures |comments| == |old(comments)| + 1
      ensures nextId == old(nextId) + 1
      ensures GetByIdAsync(created.id) == Some(created)
    {
      created := comment.(id := nextId);
      comments := comments + [created];
      nextId := nextId + 1;
      FindUnique(comments, CommentKey, created.id, |comments| - 1);
    }

    /**
     * `UpdateAsync(id, comment)`: null when no comment has `id`; otherwise only
     * `Title` and `Content` are copied onto the stored comment, and no other
     * comment changes.
     */
    method UpdateAsync(id: int, comment: Comment) returns (r: Option<Comment>)
      requires Valid()
      modifies this
      ensures Valid() && nextId == old(nextId)
      ensures old(GetByIdAsync(id)).None? ==> r.None? && comments == old(comments)
      ensures old(GetByIdAsync(id)).Some? ==>
        var before := old(GetByIdAsync(id)).value;
        && r == Some(before.(title := comment.title, content := comment.content))
        && r.value.id == id && r.value.stockId == before.stockId
        && r.value.appUserId == before.appUserId && r.value.createdOn == before.createdOn
        && GetByIdAsync(id) == r
        && |comments| == |old(comments)|
        && forall i :: 0 <= i < |comments| ==>
             comments[i] == if old(comments)[i].id == id then r.value else old(comments)[i]
    {
      var found := IndexOf(comments, CommentKey, id);
      if found.None? {
        return None;
      }
      var i := found.value;
      var existing := comments[i];
      existing := existing.(title := comment.title);
      existing := existing.(content := comment.content);
      ReplaceKeepsKeys(comments, CommentKey, i, existing);
      comments := comments[i := existing];
      FindUnique(comments, CommentKey, id, i);
      r := Some(existing);
    }

    /** `DeleteAsync(id)`: null when absent; otherwise exactly that comment is removed and returned. */
    method DeleteAsync(id: int) returns (r: Option<Comment>)
      requires Valid()
      modifies this
      ensures Valid() && nextId == old(nextId)
      ensures r == old(GetByIdAsync(id))
      ensures r.None? ==> comments == old(comments)
      ensures r.Some? ==>
        && GetByIdAsync(id).None?
        && |comments| == |old(comments)| - 1
        && (forall c :: c in comments <==> c in old(comments) && c.id != id)
        && exists i :: 0 <= i < |old(comments)| && old(comments)[i] == r.value
                       && comments == old(comments)[..i] + old(comments)[i + 1..]
    {
      var found := IndexOf(comments, CommentKey, id);
      if found.None? {
        return None;
      }
      var i := found.value;
      r := Some(comments[i]);
      RemoveFound(comments, CommentKey, id, i);
      comments := RemoveAt(comments, i);
    }
  }
}
