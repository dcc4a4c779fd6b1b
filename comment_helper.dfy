/** backend/api/helpers/comment_helper.py: comments, and the (user, comment)
    like relation kept in step with each comment's `likes` counter. */
module CommentModel {

  import opened Outcomes
  import opened Text
  import opened Tables
  import opened Models

  /** The comment table and the like relation `Users.liked_comments`. */
  datatype CommentTables = CommentTables(comments: Table<Comment>, likes: set<Like>)

  /** The users who like comment `commentId`. */
  function Likers(likes: set<Like>, commentId: Id): set<Id> {
    set l | l in likes && l.commentId == commentId :: l.userId
  }

  /** The relation and the counters agree: every like names a stored comment,
      and every comment's counter is the number of users liking it. */
  ghost predicate LikesInStep(s: CommentTables) {
    && Tables.Valid(s.comments)
    && (forall l :: l in s.likes ==> l.commentId in s.comments.rows)
    && (forall id :: id in s.comments.rows ==> s.comments.rows[id].likes == |Likers(s.likes, id)|)
  }

  ghost predicate NoNegativeLikes(t: Table<Comment>) {
    forall id :: id in t.rows ==> t.rows[id].likes >= 0
  }

  function NotFound(id: Id): string { "Could not find comment with comment id: " + IntToString(id) }

  // ---------------------------------------------------------------------
  // create_comment, delete_comment, update_comment

  function CreateComment(s: CommentTables, userId: Id, campaignId: Id, content: string, commit: Commit)
    : (r: Outcome<Result<Row<Comment>>, CommentTables>)
    ensures commit != Committed ==> r == Outcome(Err(RuntimeError("Could not create a new comment")), s)
    ensures commit == Committed ==>
      && r.reply == Ok(Row(s.comments.next, Comment(userId, campaignId, content, 0)))
      && r.state == CommentTables(Table(s.comments.rows[s.comments.next := Comment(userId, campaignId, content, 0)], s.comments.next + 1), s.likes)
    ensures Tables.Valid(s.comments) && r.reply.Ok? ==> r.reply.value.id !in s.comments.rows
    ensures LikesInStep(s) ==> LikesInStep(r.state)
  {
    if commit != Committed then Outcome(Err(RuntimeError("Could not create a new comment")), s)
    else
      var rec := Comment(userId, campaignId, content, 0);
      var (t, id) := Insert(s.comments, rec);
      assert LikesInStep(s) ==> Likers(s.likes, id) == {};
      Outcome(Ok(Row(id, rec)), CommentTables(t, s.likes))
  }

  /** Deleting a comment also deletes its rows in the like relation, as the
      many-to-many relationship does. */
  function DeleteComment(s: CommentTables, id: Id, commit: Commit): (r: Outcome<Result<string>, CommentTables>)
    ensures id !in s.comments.rows ==> r == Outcome(Ok(NotFound(id)), s)
    ensures r.reply.Err? ==> r.state == s && commit != Committed
    ensures id in s.comments.rows && commit == Committed ==>
      && r.reply == Ok("Comment with comment id: " + IntToString(id) + " was deleted successfully.")
      && r.state.comments.rows.Keys == s.comments.rows.Keys - {id}
      && (forall k :: k in r.state.comments.rows ==> r.state.comments.rows[k] == s.comments.rows[k])
      && r.state.likes == set l | l in s.likes && l.commentId != id
    ensures LikesInStep(s) ==> LikesInStep(r.state)
  {
    if id !in s.comments.rows then Outcome(Ok(NotFound(id)), s)
    else if commit != Committed then
      Outcome(Err(RuntimeError("Could not delete comment with comment id " + IntToString(id))), s)
    else
      var likes' := set l | l in s.likes && l.commentId != id;
      assert forall k :: k != id ==> Likers(likes', k) == Likers(s.likes, k);
      Outcome(Ok("Comment with comment id: " + IntToString(id) + " was deleted successfully."),
              CommentTables(Remove(s.comments, id), likes'))
  }

  function UpdateComment(s: CommentTables, id: Id, content: string, commit: Commit)
    : (r: Outcome<Result<Reply<Row<Comment>>>, CommentTables>)
    ensures id !in s.comments.rows ==> r == Outcome(Ok(Message(NotFound(id))), s)
    ensures r.reply.Err? ==> r.state == s && commit != Committed
    ensures id in s.comments.rows && commit == Committed ==>
      && r.reply == Ok(Value(Row(id, s.comments.rows[id].(content := content))))
      && r.state == CommentTables(Table(s.comments.rows[id := s.comments.rows[id].(content := content)], s.comments.next), s.likes)
    ensures LikesInStep(s) ==> LikesInStep(r.state)
  {
    if id !in s.comments.rows then Outcome(Ok(Message(NotFound(id))), s)
    else if commit != Committed then
      Outcome(Err(RuntimeError("Could not update comment with comment id")), s)
    else
      var updated := s.comments.rows[id].(content := content);
      Outcome(Ok(Value(Row(id, updated))), CommentTables(Put(s.comments, id, updated), s.likes))
  }

  // ---------------------------------------------------------------------
  // Views

  function ViewCommentByCommentId(t: Table<Comment>, id: Id): (r: Reply<Row<Comment>>)
    ensures r.Value? <==> id in t.rows
    ensures r.Value? ==> r.value == Row(id, t.rows[id])
    ensures r.Message? ==> r.text == "Could not find a comment with comment id: " + IntToString(id)
  {
    if id in t.rows then Value(Row(id, t.rows[id]))
    else Message("Could not find a comment with comment id: " + IntToString(id))
  }

  function ViewAllCommentsByUser(t: Table<Comment>, userId: Id): (r: seq<Row<Comment>>)
    ensures forall i :: 0 <= i < |r| ==> r[i].id in t.rows && t.rows[r[i].id] == r[i].rec && r[i].rec.userId == userId
    ensures Tables.Valid(t) ==> forall id :: id in t.rows && t.rows[id].userId == userId ==> Row(id, t.rows[id]) in r
  {
    Select(t, (c: Comment) => c.userId == userId)
  }

  function ViewAllCommentsByCampaign(t: Table<Comment>, campaignId: Id): (r: seq<Row<Comment>>)
    ensures forall i :: 0 <= i < |r| ==> r[i].id in t.rows && t.rows[r[i].id] == r[i].rec && r[i].rec.campaignId == campaignId
    ensures Tables.Valid(t) ==> forall id :: id in t.rows && t.rows[id].campaignId == campaignId ==> Row(id, t.rows[id]) in r
  {
    Select(t, (c: Comment) => c.campaignId == campaignId)
  }

  // ---------------------------------------------------------------------
  // toggle_like, get_total_likes

  datatype Toggled = Toggled(message: string, comment: Row<Comment>)

  /** The counter after a toggle: floored at 0 when unliking. */
  function NewLikes(likes: int, liked: bool): (n: int)
    ensures liked ==> n >= 0 && (likes > 0 ==> n == likes - 1)
    ensures !liked ==> n == likes + 1
  {
    if liked then (if likes > 0 then likes - 1 else 0) else likes + 1
  }

  function ToggleLike(users: Table<User>, s: CommentTables, commentId: Id, userId: Id, commit: Commit)
    : (r: Outcome<Result<Reply<Toggled>>, CommentTables>)
    // a missing user is reported first, then a missing comment; nothing changes
    ensures userId !in users.rows ==>
      r == Outcome(Ok(Message("User with user id: " + IntToString(userId) + " not found.")), s)
    ensures userId in users.rows && commentId !in s.comments.rows ==>
      r == Outcome(Ok(Message("Comment with comment id: " + IntToString(commentId) + " not found.")), s)
    ensures r.reply.Err? ==> r.state == s && commit != Committed
    ensures !(r.reply.Ok? && r.reply.value.Value?) ==> r.state == s
    ensures userId in users.rows && commentId in s.comments.rows && commit == Committed ==>
      var c := s.comments.rows[commentId];
      var liked := Like(userId, commentId) in s.likes;
      var c' := c.(likes := NewLikes(c.likes, liked));
      && r.state.comments == Table(s.comments.rows[commentId := c'], s.comments.next)
      && r.state.likes == (if liked then s.likes - {Like(userId, commentId)} else s.likes + {Like(userId, commentId)})
      && r.reply == Ok(Value(Toggled(if liked then "Comment unliked successfully." else "Comment liked successfully.",
                                     Row(commentId, c'))))
  {
    if userId !in users.rows then Outcome(Ok(Message("User with user id: " + IntToString(userId) + " not found.")), s)
    else if commentId !in s.comments.rows then
      Outcome(Ok(Message("Comment with comment id: " + IntToString(commentId) + " not found.")), s)
    else if commit != Committed then
      Outcome(Err(RuntimeError("Could not toggle like for comment id " + IntToString(commentId))), s)
    else
      var c := s.comments.rows[commentId];
      var pair := Like(userId, commentId);
      var liked := pair in s.likes;
      var c' := c.(likes := NewLikes(c.likes, liked));
      var likes' := if liked then s.likes - {pair} else s.likes + {pair};
      var message := if liked then "Comment unliked successfully." else "Comment liked successfully.";
      Outcome(Ok(Value(Toggled(message, Row(commentId, c')))),
              CommentTables(Put(s.comments, commentId, c'), likes'))
  }


  lemma LikersAfterAdd(likes: set<Like>, u: Id, c: Id)
    requires Like(u, c) !in likes
    ensures u !in Likers(likes, c) && Likers(likes + {Like(u, c)}, c) == Likers(likes, c) + {u}
    ensures forall k :: k != c ==> Likers(likes + {Like(u, c)}, k) == Likers(likes, k)
  {
  }

  lemma LikersAfterRemove(likes: set<Like>, u: Id, c: Id)
    requires Like(u, c) in likes
    ensures u in Likers(likes, c) && Likers(likes - {Like(u, c)}, c) == Likers(likes, c) - {u}
    ensures forall k :: k != c ==> Likers(likes - {Like(u, c)}, k) == Likers(likes, k)
  {
    assert Likers(likes - {Like(u, c)}, c) == Likers(likes, c) - {u} by {
      forall x | x in Likers(likes, c) - {u} ensures x in Likers(likes - {Like(u, c)}, c) {
        var l :| l in likes && l.commentId == c && l.userId == x;
        assert l != Like(u, c);
      }
    }
  }

  /** toggle_like keeps the counter equal to the number of users liking the
      comment. */
  lemma ToggleKeepsLikesInStep(users: Table<User>, s: CommentTables, commentId: Id, userId: Id, commit: Commit)
    requires LikesInStep(s)
    ensures LikesInStep(ToggleLike(users, s, commentId, userId, commit).state)
  {
    if userId in users.rows && commentId in s.comments.rows && commit == Committed {
      if Like(userId, commentId) in s.likes {
        LikersAfterRemove(s.likes, userId, commentId);
      } else {
        LikersAfterAdd(s.likes, userId, commentId);
      }
    }
  }

  /** The counter never goes below 0. */
  lemma ToggleKeepsLikesNonNegative(users: Table<User>, s: CommentTables, commentId: Id, userId: Id, commit: Commit)
    requires NoNegativeLikes(s.comments)
    ensures NoNegativeLikes(ToggleLike(users, s, commentId, userId, commit).state.comments)
  {
  }

  /** Toggling the same pair twice restores the relation and the counter. */
  lemma ToggleTwiceRestores(users: Table<User>, s: CommentTables, commentId: Id, userId: Id)
    requires LikesInStep(s)
    ensures ToggleLike(users, ToggleLike(users, s, commentId, userId, Committed).state, commentId, userId, Committed).state == s
  {
    if userId in users.rows && commentId in s.comments.rows {
      var pair := Like(userId, commentId);
      if pair in s.likes {
        LikersAfterRemove(s.likes, userId, commentId);
        assert |Likers(s.likes, commentId)| >= 1;
        assert s.likes - {pair} + {pair} == s.likes;
      } else {
        assert s.likes + {pair} - {pair} == s.likes;
      }
      var c := s.comments.rows[commentId];
      assert s.comments.rows[commentId := c] == s.comments.rows;
    }
  }

  /** `get_total_likes`: the stored counter, 0 for an unknown comment. While
      the counters are in step with the like rows it is the number of users
      who like the comment. */
  function GetTotalLikes(s: CommentTables, commentId: Id): (r: int)
    ensures commentId !in s.comments.rows ==> r == 0
    ensures LikesInStep(s) ==> r == |Likers(s.likes, commentId)|
  {
    assert LikesInStep(s) && commentId !in s.comments.rows ==> Likers(s.likes, commentId) == {} by {
      if LikesInStep(s) && commentId !in s.comments.rows {
        forall l | l in s.likes ensures l.commentId != commentId { }
      }
    }
    if commentId in s.comments.rows then s.comments.rows[commentId].likes else 0
  }
}

/** The comment helpers as methods on the shared database. */
module CommentHelper {

  import opened Outcomes
  import opened Text
  import opened Tables
  import opened Models
  import opened Database
  import M = CommentModel

  method CreateComment(db: Db, userId: Id, campaignId: Id, content: string, commit: Commit)
    returns (r: Result<Row<Comment>>)
    requires db.Valid()
    modifies db`comments
    ensures db.Valid()
    ensures Outcome(r, M.CommentTables(db.comments, db.likes))
         == M.CreateComment(M.CommentTables(old(db.comments), db.likes), userId, campaignId, content, commit)
  {
    if commit != Committed {
      return Err(RuntimeError("Could not create a new comment"));
    }
    var comment := Comment(userId, campaignId, content, 0);
    var id := db.comments.next;
    db.comments := Table(db.comments.rows[id := comment], id + 1);
    r := Ok(Row(id, comment));
  }

  method DeleteComment(db: Db, id: Id, commit: Commit) returns (r: Result<string>)
    requires db.Valid()
    modifies db`comments, db`likes
    ensures db.Valid()
    ensures Outcome(r, M.CommentTables(db.comments, db.likes))
         == M.DeleteComment(M.CommentTables(old(db.comments), old(db.likes)), id, commit)
  {
    if id !in db.comments.rows {
      return Ok(M.NotFound(id));
    }
    if commit != Committed {
      return Err(RuntimeError("Could not delete comment with comment id " + IntToString(id)));
    }
    db.comments := Remove(db.comments, id);
    db.likes := set l | l in db.likes && l.commentId != id;
    r := Ok("Comment with comment id: " + IntToString(id) + " was deleted successfully.");
  }

  method UpdateComment(db: Db, id: Id, content: string, commit: Commit) returns (r: Result<Reply<Row<Comment>>>)
    requires db.Valid()
    modifies db`comments
    ensures db.Valid()
    ensures Outcome(r, M.CommentTables(db.comments, db.likes))
         == M.UpdateComment(M.CommentTables(old(db.comments), db.likes), id, content, commit)
  {
    if id !in db.comments.rows {
      return Ok(Message(M.NotFound(id)));
    }
    if commit != Committed {
      return Err(RuntimeError("Could not update comment with comment id"));
    }
    var comment := db.comments.rows[id].(content := content);
    db.comments := Put(db.comments, id, comment);
    r := Ok(Value(Row(id, comment)));
  }

  method ToggleLike(db: Db, commentId: Id, userId: Id, commit: Commit) returns (r: Result<Reply<M.Toggled>>)
    requires db.Valid()
    modifies db`comments, db`likes
    ensures db.Valid()
    ensures Outcome(r, M.CommentTables(db.comments, db.likes))
         == M.ToggleLike(db.users, M.CommentTables(old(db.comments), old(db.likes)), commentId, userId, commit)
  {
    if userId !in db.users.rows {
      return Ok(Message("User with user id: " + IntToString(userId) + " not found."));
    }
    if commentId !in db.comments.rows {
      return Ok(Message("Comment with comment id: " + IntToString(commentId) + " not found."));
    }
    if commit != Committed {
      return Err(RuntimeError("Could not toggle like for comment id " + IntToString(commentId)));
    }
    var comment := db.comments.rows[commentId];
    var pair := Like(userId, commentId);
    var message;
    if pair in db.likes {
      db.likes := db.likes - {pair};
      comment := comment.(likes := if comment.likes > 0 then comment.likes - 1 else 0);
      message := "Comment unliked successfully.";
    } else {
      db.likes := db.likes + {pair};
      comment := comment.(likes := comment.likes + 1);
      message := "Comment liked successfully.";
    }
    db.comments := Put(db.comments, commentId, comment);
    r := Ok(Value(M.Toggled(message, Row(commentId, comment))));
  }
}
