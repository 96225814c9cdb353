/**
 * Review: the comment thread of the review page, with one level of replies,
 * and the like button.
 */
module Review {

  import opened Wrappers
  import Text
  import Lists

  /** A comment; replies are comments too, though the page only nests one level. */
  datatype Comment = Comment(
    id: string,
    content: string,
    author: string,
    authorRole: string,
    timestamp: real,
    createdAt: int,
    replies: seq<Comment>,
    likes: int,
    liked: bool)

  datatype ReviewState = ReviewState(
    comments: seq<Comment>,
    newComment: string,
    replyingTo: Option<string>,
    hasAsset: bool)

  /** `if (replyingTo)`: a missing target and the empty id both count as no target. */
  predicate HasTarget(replyingTo: Option<string>) {
    replyingTo.Some? && replyingTo.value != ""
  }

  /** The comment `addComment` builds from the typed text at the player's current time. */
  function NewComment(id: string, content: string, currentTime: real, now: int): (c: Comment)
    ensures c.likes == 0 && !c.liked && c.replies == []
    ensures c.timestamp == currentTime && c.content == content && c.createdAt == now
  {
    Comment(id, content, "Current User", "Reviewer", currentTime, now, [], 0, false)
  }

  /** Appends `reply` to every top-level comment with the target id. */
  function AttachReply(comments: seq<Comment>, target: string, reply: Comment): (r: seq<Comment>)
    ensures |r| == |comments|
    ensures forall k :: 0 <= k < |comments| && comments[k].id != target ==> r[k] == comments[k]
    ensures forall k :: 0 <= k < |comments| && comments[k].id == target ==>
              r[k] == comments[k].(replies := comments[k].replies + [reply])
  {
    seq(|comments|, k requires 0 <= k < |comments| =>
          if comments[k].id == target then comments[k].(replies := comments[k].replies + [reply]) else comments[k])
  }

  /** `addComment`: a reply under the target, or a new comment at the top of the thread. */
  function AddComment(s: ReviewState, freshId: string, currentTime: real, now: int): (r: ReviewState)
    ensures Text.IsBlank(s.newComment) || !s.hasAsset ==> r == s
    ensures !Text.IsBlank(s.newComment) && s.hasAsset && !HasTarget(s.replyingTo) ==>
              && r.comments == [NewComment(freshId, s.newComment, currentTime, now)] + s.comments
              && r.replyingTo == s.replyingTo && r.newComment == ""
    ensures !Text.IsBlank(s.newComment) && s.hasAsset && HasTarget(s.replyingTo) ==>
              && |r.comments| == |s.comments|
              && r.comments == AttachReply(s.comments, s.replyingTo.value, NewComment(freshId, s.newComment, currentTime, now))
              && r.replyingTo.None? && r.newComment == ""
  {
    if Text.IsBlank(s.newComment) || !s.hasAsset then s
    else
      var c := NewComment(freshId, s.newComment, currentTime, now);
      if HasTarget(s.replyingTo) then
        s.(comments := AttachReply(s.comments, s.replyingTo.value, c), replyingTo := None, newComment := "")
      else
        s.(comments := [c] + s.comments, newComment := "")
  }

  /** All comments in the thread, replies included, counted. */
  function Total(comments: seq<Comment>): nat {
    if |comments| == 0 then 0 else 1 + |comments[0].replies| + Total(comments[1..])
  }

  /** A reply to the one top-level comment with the target id adds exactly one comment to the total. */
  lemma {:induction false} ReplyAddsOne(comments: seq<Comment>, target: string, reply: Comment, k: nat)
    requires k < |comments| && comments[k].id == target
    requires forall j :: 0 <= j < |comments| && j != k ==> comments[j].id != target
    ensures Total(AttachReply(comments, target, reply)) == Total(comments) + 1
  {
    var r := AttachReply(comments, target, reply);
    if k == 0 {
      TotalUnchanged(comments[1..], target, reply);
      assert AttachReply(comments[1..], target, reply) == r[1..];
    } else {
      ReplyAddsOne(comments[1..], target, reply, k - 1);
      assert AttachReply(comments[1..], target, reply) == r[1..];
    }
  }

  /** A reply whose target is not among the top-level comments changes nothing: the reply is dropped. */
  lemma {:induction false} TotalUnchanged(comments: seq<Comment>, target: string, reply: Comment)
    requires forall j :: 0 <= j < |comments| ==> comments[j].id != target
    ensures AttachReply(comments, target, reply) == comments
    ensures Total(AttachReply(comments, target, reply)) == Total(comments)
  {
  }

  /** A new top-level comment adds one to the thread. */
  lemma NewThreadAddsOne(s: ReviewState, freshId: string, currentTime: real, now: int)
    requires !Text.IsBlank(s.newComment) && s.hasAsset && !HasTarget(s.replyingTo)
    ensures Total(AddComment(s, freshId, currentTime, now).comments) == Total(s.comments) + 1
  {
    var r := AddComment(s, freshId, currentTime, now).comments;
    assert r[1..] == s.comments;
  }

  /** The like button: flips `liked` and moves `likes` by one in the matching direction. */
  function Like(c: Comment): (r: Comment)
    ensures r.liked == !c.liked
    ensures r.likes == if c.liked then c.likes - 1 else c.likes + 1
    ensures r == c.(liked := r.liked, likes := r.likes)
  {
    c.(liked := !c.liked, likes := if c.liked then c.likes - 1 else c.likes + 1)
  }

  lemma LikeTwice(c: Comment)
    ensures Like(Like(c)) == c
  {
  }

  /** `likeComment`: every top-level comment with the id is liked or unliked; replies are not looked at. */
  function LikeComment(comments: seq<Comment>, id: string): (r: seq<Comment>)
    ensures |r| == |comments|
    ensures forall k :: 0 <= k < |comments| ==> r[k].id == comments[k].id && r[k].replies == comments[k].replies
    ensures forall k :: 0 <= k < |comments| && comments[k].id != id ==> r[k] == comments[k]
    ensures forall k :: 0 <= k < |comments| && comments[k].id == id ==> r[k] == Like(comments[k])
  {
    Lists.UpdateWhere(comments, (c: Comment) => c.id == id, Like)
  }

  /** Pressing the like button twice restores the thread. */
  lemma LikeCommentTwice(comments: seq<Comment>, id: string)
    ensures LikeComment(LikeComment(comments, id), id) == comments
  {
    var r := LikeComment(LikeComment(comments, id), id);
    forall k | 0 <= k < |comments| ensures r[k] == comments[k] {
      if comments[k].id == id {
        LikeTwice(comments[k]);
      }
    }
  }

  /** The like button under a reply does nothing when no top-level comment shares the reply's id. */
  lemma LikingAReplyChangesNothing(comments: seq<Comment>, k: nat, j: nat)
    requires k < |comments| && j < |comments[k].replies|
    requires forall i :: 0 <= i < |comments| ==> comments[i].id != comments[k].replies[j].id
    ensures LikeComment(comments, comments[k].replies[j].id) == comments
  {
  }
}
