/**
 * The community models of ggongsul/community/models.py: posts and comments,
 * which are soft-deleted in place, and attentions (likes), at most one per
 * (post, member), whose is_deleted flag is toggled.
 */
module CommunityModels {
  import opened Wrappers

  /** A Post row; is_deleted and deleted_on are what the views update. */
  class Post {
    const id: nat
    const memberId: nat
    const body: string
    var isDeleted: bool
    var deletedOn: Option<int>

    constructor (id: nat, memberId: nat, body: string)
      ensures this.id == id && this.memberId == memberId && this.body == body
      ensures !isDeleted && deletedOn == None
    {
      this.id := id;
      this.memberId := memberId;
      this.body := body;
      isDeleted := false;
      deletedOn := None;
    }

    /** Post.short_body: despite its name, the whole body, not shortened. */
    function ShortBody(): (r: string)
      ensures |r| == |body| && forall i :: 0 <= i < |r| ==> r[i] == body[i]
    {
      body
    }
  }

  /** A Comment row, soft-deleted like a post. */
  class Comment {
    const id: nat
    const postId: nat
    const memberId: nat
    const body: string
    var isDeleted: bool
    var deletedOn: Option<int>

    constructor (id: nat, postId: nat, memberId: nat, body: string)
      ensures this.id == id && this.postId == postId && this.memberId == memberId && this.body == body
      ensures !isDeleted && deletedOn == None
    {
      this.id := id;
      this.postId := postId;
      this.memberId := memberId;
      this.body := body;
      isDeleted := false;
      deletedOn := None;
    }
  }

  /** The columns of a comment the counts look at, as a value. */
  datatype CommentRow = CommentRow(postId: nat, memberId: nat, isDeleted: bool)

  /** The comment table's rows in the current state. */
  function Rows(comments: seq<Comment>): (rows: seq<CommentRow>)
    reads comments
    ensures |rows| == |comments|
    ensures forall i :: 0 <= i < |comments| ==>
              rows[i] == CommentRow(comments[i].postId, comments[i].memberId, comments[i].isDeleted)
  {
    seq(|comments|, i reads comments requires 0 <= i < |comments| =>
      CommentRow(comments[i].postId, comments[i].memberId, comments[i].isDeleted))
  }

  /** The positions of the rows that are live (not deleted) comments of the post. */
  function LiveIndices(postId: nat, rows: seq<CommentRow>): (s: set<int>)
    ensures forall i :: i in s <==> 0 <= i < |rows| && rows[i].postId == postId && !rows[i].isDeleted
  {
    set i | 0 <= i < |rows| && rows[i].postId == postId && !rows[i].isDeleted
  }

  /** How many rows are live (not deleted) comments of the post. */
  function LiveCount(postId: nat, rows: seq<CommentRow>): (n: nat)
    ensures n == |LiveIndices(postId, rows)|
    ensures n <= |rows|
  {
    if rows == [] then
      assert LiveIndices(postId, rows) == {};
      0
    else
      var last := rows[|rows| - 1];
      var init := rows[..|rows| - 1];
      var live := last.postId == postId && !last.isDeleted;
      LiveIndicesSnoc(postId, init, last);
      assert init + [last] == rows;
      LiveCount(postId, init) + (if live then 1 else 0)
  }

  /** A new last row adds its own position to the live positions iff it is live. */
  lemma LiveIndicesSnoc(postId: nat, rows: seq<CommentRow>, row: CommentRow)
    ensures var live := row.postId == postId && !row.isDeleted;
            && |rows| !in LiveIndices(postId, rows)
            && LiveIndices(postId, rows + [row]) ==
                 LiveIndices(postId, rows) + (if live then {|rows|} else {})
    ensures |LiveIndices(postId, rows)| <= |rows|
  {
    var after := rows + [row];
    forall i | i in LiveIndices(postId, after) || i in LiveIndices(postId, rows)
      ensures i in LiveIndices(postId, after) <==>
                i in LiveIndices(postId, rows) || (i == |rows| && row.postId == postId && !row.isDeleted)
    {
      if i < |rows| {
        assert after[i] == rows[i];
      }
    }
    IndicesBound(LiveIndices(postId, rows), |rows|);
  }

  /** A set of positions below n has at most n elements. */
  lemma {:induction false} IndicesBound(s: set<int>, n: nat)
    requires forall i :: i in s ==> 0 <= i < n
    ensures |s| <= n
  {
    if n > 0 {
      IndicesBound(s - {n - 1}, n - 1);
    } else {
      assert forall i :: i !in s;
      assert s == {};
    }
  }

  /**
   * Post.total_comment_cnt: the number of the post's comments that are not
   * deleted.
   */
  function TotalCommentCnt(postId: nat, comments: seq<Comment>): (n: nat)
    reads comments
    ensures n == |set i | 0 <= i < |comments| && comments[i].postId == postId && !comments[i].isDeleted|
    ensures n <= |comments|
  {
    var rows := Rows(comments);
    assert LiveIndices(postId, rows) ==
             set i | 0 <= i < |comments| && comments[i].postId == postId && !comments[i].isDeleted;
    LiveCount(postId, rows)
  }

  /** Only live comments of the post count: a deleted row or another post's row adds nothing. */
  lemma {:induction false} LiveCountAppend(postId: nat, rows: seq<CommentRow>, row: CommentRow)
    ensures LiveCount(postId, rows + [row]) ==
              LiveCount(postId, rows) + (if row.postId == postId && !row.isDeleted then 1 else 0)
  {
    assert (rows + [row])[..|rows|] == rows;
  }

  /**
   * Soft-deleting the comment at position k lowers its post's count by one when it
   * was live, and leaves every other post's count as it was.
   */
  lemma {:induction false} LiveCountAfterDelete(postId: nat, rows: seq<CommentRow>, k: nat)
    requires k < |rows|
    ensures var after := rows[k := rows[k].(isDeleted := true)];
            LiveCount(postId, after) ==
              LiveCount(postId, rows) - (if rows[k].postId == postId && !rows[k].isDeleted then 1 else 0)
  {
    var after := rows[k := rows[k].(isDeleted := true)];
    var n := |rows| - 1;
    assert after[..n] == if k == n then rows[..n] else rows[..n][k := rows[k].(isDeleted := true)];
    if k < n {
      LiveCountAfterDelete(postId, rows[..n], k);
    }
  }

  /**
   * The live attentions of a post, from the attention table keyed by
   * (post id, member id) with each row's is_deleted flag: the key makes the
   * (post, member) pair unique, as the table's unique_together does.
   */
  function LiveAttentions(postId: nat, attentions: map<(nat, nat), bool>): (s: set<(nat, nat)>)
    ensures forall k :: k in s <==> k in attentions && k.0 == postId && !attentions[k]
  {
    set k | k in attentions && k.0 == postId && !attentions[k]
  }

  /** Post.total_attention_cnt: the post's attentions that are not deleted, one per member at most. */
  function TotalAttentionCnt(postId: nat, attentions: map<(nat, nat), bool>): (n: nat)
    ensures n <= |attentions|
  {
    var s := LiveAttentions(postId, attentions);
    assert s <= attentions.Keys;
    SubsetCard(s, attentions.Keys);
    |s|
  }

  lemma SubsetCard<T>(a: set<T>, b: set<T>)
    requires a <= b
    ensures |a| <= |b|
  {
    assert b == a + (b - a);
  }

  /** The members with a live attention on the post: the count is theirs. */
  lemma AttentionCntCountsMembers(postId: nat, attentions: map<(nat, nat), bool>)
    ensures TotalAttentionCnt(postId, attentions) ==
              |set k | k in attentions && k.0 == postId && !attentions[k] :: k.1|
  {
    var s := LiveAttentions(postId, attentions);
    var ms := set k | k in attentions && k.0 == postId && !attentions[k] :: k.1;
    assert s == Paired(postId, ms);
    MapCard(ms, postId);
  }

  /** The attention keys of the given members on one post. */
  function Paired(postId: nat, ms: set<nat>): set<(nat, nat)>
  {
    set m | m in ms :: (postId, m)
  }

  /** Pairing each member with the same post keeps the count. */
  lemma {:induction false} MapCard(ms: set<nat>, postId: nat)
    ensures |Paired(postId, ms)| == |ms|
  {
    if ms != {} {
      var m :| m in ms;
      var rest := ms - {m};
      MapCard(rest, postId);
      assert (postId, m) !in Paired(postId, rest);
      assert Paired(postId, ms) == Paired(postId, rest) + {(postId, m)};
    }
  }

  /** Comment.member as declared, a one-to-one field: adding a comment fails once the member has any comment row. */
  function AddCommentAsWritten(rows: seq<CommentRow>, row: CommentRow): (r: Result<seq<CommentRow>, string>)
  {
    if exists i :: 0 <= i < |rows| && rows[i].memberId == row.memberId then Failure("UNIQUE constraint failed")
    else Success(rows + [row])
  }

  /** As declared, a member who ever commented can never comment again, not even after deleting that comment. */
  lemma OneCommentPerMemberAsWritten(p: nat, q: nat, m: nat)
    ensures AddCommentAsWritten([CommentRow(p, m, true)], CommentRow(q, m, false)).Failure?
  {
    assert [CommentRow(p, m, true)][0].memberId == m;
  }

  /** Comment.member as the related name "comments" intends: many comments per member; a new live comment counts once. */
  function AddComment(rows: seq<CommentRow>, row: CommentRow): (r: seq<CommentRow>)
    ensures |r| == |rows| + 1 && r[..|rows|] == rows && r[|rows|] == row
    ensures LiveCount(row.postId, r) == LiveCount(row.postId, rows) + (if row.isDeleted then 0 else 1)
  {
    LiveCountAppend(row.postId, rows, row);
    rows + [row]
  }
}
