/**
 * The community views of ggongsul/community/views.py: the listings of posts
 * and comments that hide soft-deleted rows, soft delete itself, the like
 * ("attention") toggle, and the choice of permission class by action.
 */
module CommunityViews {
  import opened Wrappers
  import opened CommunityModels

  /** PostViewSet.queryset: the posts not deleted, in table order. */
  function PostQueryset(posts: seq<Post>): (r: seq<Post>)
    reads posts
    ensures |r| <= |posts|
    ensures forall i :: 0 <= i < |r| ==> r[i] in posts && !r[i].isDeleted
    ensures forall i :: 0 <= i < |posts| && !posts[i].isDeleted ==> posts[i] in r
  {
    if posts == [] then []
    else
      var init := posts[..|posts| - 1];
      var last := posts[|posts| - 1];
      assert posts == init + [last];
      PostQueryset(init) + (if last.isDeleted then [] else [last])
  }

  /** CommentViewSet.queryset: the comments not deleted, in table order. */
  function CommentQueryset(comments: seq<Comment>): (r: seq<Comment>)
    reads comments
    ensures |r| <= |comments|
    ensures forall i :: 0 <= i < |r| ==> r[i] in comments && !r[i].isDeleted
    ensures forall i :: 0 <= i < |comments| && !comments[i].isDeleted ==> comments[i] in r
  {
    if comments == [] then []
    else
      var rest := CommentQueryset(comments[1..]);
      assert forall i :: 0 < i < |comments| ==> comments[i] == comments[1..][i - 1];
      if comments[0].isDeleted then rest else [comments[0]] + rest
  }

  /**
   * PostViewSet.perform_destroy: the post is marked deleted at now and kept;
   * from then on the listing no longer shows it, and shows every other post as
   * before.
   */
  method PerformDestroyPost(instance: Post, posts: seq<Post>, now: int)
    modifies instance
    ensures instance.isDeleted && instance.deletedOn == Some(now)
    ensures forall p :: p in PostQueryset(posts) <==> p in old(PostQueryset(posts)) && p != instance
  {
    instance.isDeleted := true;
    instance.deletedOn := Some(now);
  }

  /** Each comment occurs once in the table. */
  predicate Distinct(comments: seq<Comment>)
  {
    forall i, j :: 0 <= i < j < |comments| ==> comments[i] != comments[j]
  }

  /**
   * CommentViewSet.perform_destroy: the comment is marked deleted at now and
   * kept; its row is the only one that changes, so its post's comment count
   * drops by one if it was live, and the listing no longer shows it.
   */
  method PerformDestroyComment(instance: Comment, comments: seq<Comment>, now: int)
    modifies instance
    ensures instance.isDeleted && instance.deletedOn == Some(now)
    ensures forall i :: 0 <= i < |comments| ==>
              Rows(comments)[i] == (if comments[i] == instance then old(Rows(comments)[i]).(isDeleted := true)
                                    else old(Rows(comments)[i]))
    ensures forall c :: c in CommentQueryset(comments) <==> c in old(CommentQueryset(comments)) && c != instance
    ensures Distinct(comments) && instance in comments && !old(instance.isDeleted) ==>
              TotalCommentCnt(instance.postId, comments) == old(TotalCommentCnt(instance.postId, comments)) - 1
  {
    ghost var before := Rows(comments);
    instance.isDeleted := true;
    instance.deletedOn := Some(now);
    if Distinct(comments) && instance in comments {
      var k :| 0 <= k < |comments| && comments[k] == instance;
      assert Rows(comments) == before[k := before[k].(isDeleted := true)];
      LiveCountAfterDelete(instance.postId, before, k);
    }
  }

  /**
   * One tap on the (post, member) attention: get_or_create makes a live
   * attention the first time and leaves it as created; any later tap flips
   * is_deleted. No other attention changes.
   */
  function Tap(attentions: map<(nat, nat), bool>, postId: nat, memberId: nat): (r: map<(nat, nat), bool>)
    ensures r.Keys == attentions.Keys + {(postId, memberId)}
    ensures r[(postId, memberId)] == ((postId, memberId) in attentions && !attentions[(postId, memberId)])
    ensures forall k :: k in attentions && k != (postId, memberId) ==> r[k] == attentions[k]
  {
    var key := (postId, memberId);
    if key in attentions then attentions[key := !attentions[key]] else attentions[key := false]
  }

  /** A second tap undoes the first on an attention that already exists. */
  lemma TapTwiceRestores(attentions: map<(nat, nat), bool>, postId: nat, memberId: nat)
    requires (postId, memberId) in attentions
    ensures Tap(Tap(attentions, postId, memberId), postId, memberId) == attentions
  {
    var t2 := Tap(Tap(attentions, postId, memberId), postId, memberId);
    assert t2.Keys == attentions.Keys;
  }

  /** Taps on a new key alternate: created live, then deleted, then live again. */
  lemma TapSequence(attentions: map<(nat, nat), bool>, postId: nat, memberId: nat)
    requires (postId, memberId) !in attentions
    ensures var t1 := Tap(attentions, postId, memberId);
            var t2 := Tap(t1, postId, memberId);
            !t1[(postId, memberId)] && t2[(postId, memberId)] && !Tap(t2, postId, memberId)[(postId, memberId)]
  {
  }

  /**
   * A tap moves the post's attention count by one: down when it deletes a live
   * attention, up when it creates one or revives a deleted one; other posts'
   * counts stay.
   */
  lemma TapCount(attentions: map<(nat, nat), bool>, postId: nat, memberId: nat, other: nat)
    requires other != postId
    ensures var key := (postId, memberId);
            var after := Tap(attentions, postId, memberId);
            TotalAttentionCnt(postId, after) ==
              if key in attentions && !attentions[key] then TotalAttentionCnt(postId, attentions) - 1
              else TotalAttentionCnt(postId, attentions) + 1
    ensures TotalAttentionCnt(other, Tap(attentions, postId, memberId)) == TotalAttentionCnt(other, attentions)
  {
    var key := (postId, memberId);
    var s := LiveAttentions(postId, attentions);
    LiveAfterTap(attentions, postId, memberId, postId);
    LiveAfterTap(attentions, postId, memberId, other);
    if key in attentions && !attentions[key] {
      assert s == (s - {key}) + {key};
    }
  }

  /** The live attentions a tap leaves: the tapped key leaves or joins its post's set; other posts' sets stay. */
  lemma LiveAfterTap(attentions: map<(nat, nat), bool>, postId: nat, memberId: nat, q: nat)
    ensures var key := (postId, memberId);
            var s := LiveAttentions(q, attentions);
            LiveAttentions(q, Tap(attentions, postId, memberId)) ==
              if q != postId then s
              else if key in attentions && !attentions[key] then s - {key}
              else s + {key}
  {
    var key := (postId, memberId);
    var after := Tap(attentions, postId, memberId);
    forall k | k != key
      ensures k in LiveAttentions(q, after) <==> k in LiveAttentions(q, attentions)
    {
      assert k in after <==> k in attentions;
    }
  }

  /** The permission classes the views can return. */
  datatype PermissionClass = IsObjectOwnerMember | IsAuthenticatedOrReadOnly

  /** PostViewSet.permission_classes: owners only for destroy and update, otherwise authenticated or read-only. */
  function PostPermissionClasses(action: Option<string>): (r: seq<PermissionClass>)
    ensures r == [IsObjectOwnerMember] <==> action == Some("destroy") || action == Some("update")
    ensures r == [IsAuthenticatedOrReadOnly] <==> !(action == Some("destroy") || action == Some("update"))
  {
    if action == Some("destroy") then [IsObjectOwnerMember]
    else if action == Some("update") then [IsObjectOwnerMember]
    else [IsAuthenticatedOrReadOnly]
  }

  /** CommentViewSet.permission_classes: the same choice, written as a membership test. */
  function CommentPermissionClasses(action: Option<string>): (r: seq<PermissionClass>)
    ensures r == [IsObjectOwnerMember] <==> action == Some("destroy") || action == Some("update")
    ensures r == [IsAuthenticatedOrReadOnly] <==> !(action == Some("destroy") || action == Some("update"))
  {
    if action.Some? && action.value in ["destroy", "update"] then [IsObjectOwnerMember]
    else [IsAuthenticatedOrReadOnly]
  }

  /** Both view sets protect the same actions the same way; partial_update is not owner-only. */
  lemma SamePermissionChoice(action: Option<string>)
    ensures PostPermissionClasses(action) == CommentPermissionClasses(action)
    ensures PostPermissionClasses(Some("partial_update")) == [IsAuthenticatedOrReadOnly]
  {
  }

  /**
   * The evident intent of both choices: every change to an existing post or
   * comment (update, partial_update, destroy) is for its owner only.
   */
  function OwnerOnlyPermissionClasses(action: Option<string>): (r: seq<PermissionClass>)
    ensures r == [IsObjectOwnerMember] <==>
              action == Some("destroy") || action == Some("update") || action == Some("partial_update")
    ensures r == [IsAuthenticatedOrReadOnly] <==>
              !(action == Some("destroy") || action == Some("update") || action == Some("partial_update"))
  {
    if action.Some? && action.value in ["destroy", "update", "partial_update"] then [IsObjectOwnerMember]
    else [IsAuthenticatedOrReadOnly]
  }

  /**
   * As written, a PATCH (the partial_update action) on someone else's post or
   * comment only needs an authenticated user, where the owner-only intent refuses
   * it; for every other action the two agree.
   */
  lemma PartialUpdateOpenToAnyMember(action: Option<string>)
    ensures PostPermissionClasses(Some("partial_update")) == [IsAuthenticatedOrReadOnly]
    ensures CommentPermissionClasses(Some("partial_update")) == [IsAuthenticatedOrReadOnly]
    ensures OwnerOnlyPermissionClasses(Some("partial_update")) == [IsObjectOwnerMember]
    ensures action != Some("partial_update") ==> PostPermissionClasses(action) == OwnerOnlyPermissionClasses(action)
  {
  }

  /**
   * PostViewSet.tab_attention's table of attentions, keyed by (post id, member
   * id) with each row's is_deleted flag.
   */
  class AttentionTable {
    var rows: map<(nat, nat), bool>

    constructor ()
      ensures rows == map[]
    {
      rows := map[];
    }

    /**
     * PostViewSet.tab_attention: a deleted post is not found (the queryset hides
     * it) and nothing changes; otherwise the member's attention on it is tapped.
     */
    method TabAttention(post: Post, memberId: nat) returns (found: bool)
      modifies this
      ensures found <==> !post.isDeleted
      ensures found ==> rows == Tap(old(rows), post.id, memberId)
      ensures !found ==> rows == old(rows)
    {
      if post.isDeleted {
        return false;
      }
      var key := (post.id, memberId);
      var created := key !in rows;
      if created {
        rows := rows[key := false];
      }
      if !created {
        rows := rows[key := !(rows[key] || false)];
      }
      found := true;
    }
  }
}
