/** The forum (components/Forums.tsx): the tag bar and tag filter over the
    posts, and a post's detail view with upvotes, replies and the reply order. */
module Forums {
  import opened Types
  import opened Lists
  import opened Text
  import DataContext
  import Notifications

  // ---------------------------------------------------------------------------
  // The post list

  /** `forumPosts.flatMap(p => p.tags)`. */
  function FlatTags(posts: seq<ForumPost>): (r: seq<string>)
    ensures forall t :: t in r <==> exists p :: p in posts && t in p.tags
  {
    if posts == [] then []
    else
      var rest := FlatTags(posts[1..]);
      assert forall p :: p in posts[1..] ==> p in posts;
      assert forall t :: t in rest ==> exists p :: p in posts && t in p.tags;
      assert forall p :: p in posts && p != posts[0] ==> p in posts[1..];
      posts[0].tags + rest
  }

  /** `allTags`: `[...new Set(...)]` of every tag, by first occurrence. */
  function AllTags(posts: seq<ForumPost>): seq<string> {
    Distinct(FlatTags(posts))
  }

  /** The tag bar lists each tag of each post exactly once, in the order the
      tags first occur across the posts. */
  lemma AllTagsSpec(posts: seq<ForumPost>)
    ensures forall t :: t in AllTags(posts) <==> exists p :: p in posts && t in p.tags
    ensures NoDuplicates(AllTags(posts))
    ensures var flat, tags := FlatTags(posts), AllTags(posts);
      forall i, j :: 0 <= i < j < |tags| ==> FirstPos(flat, tags[i]) < FirstPos(flat, tags[j])
  {
    DistinctFirstOccurrenceOrder(FlatTags(posts));
  }

  function HasTag(tag: string): ForumPost -> bool {
    (p: ForumPost) => tag in p.tags
  }

  /** `filteredPosts`: all posts when no tag (or the empty tag) is active,
      otherwise the posts carrying the active tag. */
  function FilteredPosts(posts: seq<ForumPost>, activeTag: Option<string>): (r: seq<ForumPost>)
    ensures activeTag.None? || activeTag == Some("") ==> r == posts
    ensures activeTag.Some? && activeTag.value != "" ==>
      forall p :: p in r <==> p in posts && activeTag.value in p.tags
  {
    if activeTag.Some? && activeTag.value != "" then Filter(HasTag(activeTag.value), posts) else posts
  }

  /** The tag filter keeps the posts' order: it works piecewise on lists laid end to end. */
  lemma FilteredPostsKeepOrder(a: seq<ForumPost>, b: seq<ForumPost>, activeTag: Option<string>)
    ensures FilteredPosts(a + b, activeTag) == FilteredPosts(a, activeTag) + FilteredPosts(b, activeTag)
  {
    if activeTag.Some? && activeTag.value != "" {
      FilterAppend(HasTag(activeTag.value), a, b);
    }
  }

  // ---------------------------------------------------------------------------
  // Replies

  /** `handleUpvote`'s map: one more upvote on each reply with the id, nothing else changed. */
  function Upvote(replies: seq<ForumReply>, replyId: string): (r: seq<ForumReply>)
    ensures |r| == |replies|
    ensures forall i :: 0 <= i < |replies| ==>
      && r[i].upvotes == replies[i].upvotes + (if replies[i].id == replyId then 1 else 0)
      && r[i].(upvotes := replies[i].upvotes) == replies[i]
  {
    if replies == [] then []
    else
      var x := replies[0];
      [if x.id == replyId then x.(upvotes := x.upvotes + 1) else x] + Upvote(replies[1..], replyId)
  }

  function TotalUpvotes(replies: seq<ForumReply>): int {
    if replies == [] then 0 else replies[0].upvotes + TotalUpvotes(replies[1..])
  }

  function CountId(replies: seq<ForumReply>, replyId: string): nat {
    if replies == [] then 0 else (if replies[0].id == replyId then 1 else 0) + CountId(replies[1..], replyId)
  }

  /** An upvote adds one vote per reply carrying the id to the post's total:
      exactly one when the id is unique, none when it is absent. */
  lemma {:induction false} UpvoteTotal(replies: seq<ForumReply>, replyId: string)
    ensures TotalUpvotes(Upvote(replies, replyId)) == TotalUpvotes(replies) + CountId(replies, replyId)
  {
    if replies != [] {
      UpvoteTotal(replies[1..], replyId);
      assert Upvote(replies, replyId)[1..] == Upvote(replies[1..], replyId);
    }
  }

  /** The reply `handlePostReply` builds: the author, the text as typed, no votes. */
  function NewReply(id: string, author: User, content: string): (r: ForumReply)
    ensures r.upvotes == 0 && r.author == author && r.content == content && r.id == id
  {
    ForumReply(id, author, content, "Just now", 0)
  }

  /** Replies are shown by non-increasing upvotes. */
  predicate DescendingUpvotes(s: seq<ForumReply>) {
    forall k, l :: 0 <= k < l < |s| ==> s[k].upvotes >= s[l].upvotes
  }

  /** The first `n` replies are in non-increasing upvote order. */
  predicate DescendingPrefix(s: seq<ForumReply>, n: int)
    requires 0 <= n <= |s|
  {
    forall k, l :: 0 <= k < l < n ==> s[k].upvotes >= s[l].upvotes
  }

  /** `replies.sort((a, b) => b.upvotes - a.upvotes)`, in place on the stored array. */
  method SortReplies(a: array<ForumReply>)
    modifies a
    ensures DescendingUpvotes(a[..])
    ensures multiset(a[..]) == multiset(old(a[..]))
  {
    var i := 0;
    while i < a.Length
      invariant 0 <= i <= a.Length
      invariant DescendingPrefix(a[..], i)
      invariant multiset(a[..]) == multiset(old(a[..]))
    {
      InsertReply(a, i);
      i := i + 1;
    }
  }

  /** One insertion step: moves `a[i]` left past every reply with fewer
      upvotes, so that the first `i + 1` replies are in order. */
  method InsertReply(a: array<ForumReply>, i: int)
    requires 0 <= i < a.Length && DescendingPrefix(a[..], i)
    modifies a
    ensures DescendingPrefix(a[..], i + 1)
    ensures multiset(a[..]) == multiset(old(a[..]))
  {
    var j := i;
    while j > 0 && a[j - 1].upvotes < a[j].upvotes
      invariant 0 <= j <= i
      invariant forall k, l :: 0 <= k < l <= i && k != j && l != j ==> a[k].upvotes >= a[l].upvotes
      invariant forall l :: j < l <= i ==> a[l].upvotes < a[j].upvotes
      invariant multiset(a[..]) == multiset(old(a[..]))
    {
      SwapAdjacent(a, j);
      j := j - 1;
    }
  }

  /** Exchanges the replies at `j - 1` and `j`. */
  method SwapAdjacent(a: array<ForumReply>, j: int)
    requires 0 < j < a.Length
    modifies a
    ensures a[j - 1] == old(a[j]) && a[j] == old(a[j - 1])
    ensures forall k :: 0 <= k < a.Length && k != j - 1 && k != j ==> a[k] == old(a[k])
    ensures multiset(a[..]) == multiset(old(a[..]))
  {
    a[j - 1], a[j] := a[j], a[j - 1];
  }

  // ---------------------------------------------------------------------------
  // Views

  /** The post list: the open post and the active tag. */
  class ForumsView {
    var selectedPost: Option<ForumPost>
    var activeTag: Option<string>

    constructor ()
      ensures selectedPost == None && activeTag == None
    {
      selectedPost := None;
      activeTag := None;
    }

    /** A tag button, or 'All' with `None`. */
    method SetActiveTag(tag: Option<string>)
      modifies this
      ensures activeTag == tag && selectedPost == old(selectedPost)
    {
      activeTag := tag;
    }

    /** Clicking a post opens its detail view. */
    method SelectPost(post: ForumPost)
      modifies this
      ensures selectedPost == Some(post) && activeTag == old(activeTag)
    {
      selectedPost := Some(post);
    }

    /** The detail view's back link. */
    method Back()
      modifies this
      ensures selectedPost == None && activeTag == old(activeTag)
    {
      selectedPost := None;
    }
  }

  /** The detail view of one post: its id and the reply being typed. The post
      shown is the cache's current copy with that id. */
  class ForumPostDetail {
    const postId: string
    var newReply: string

    constructor (postId: string)
      ensures this.postId == postId && newReply == ""
    {
      this.postId := postId;
      newReply := "";
    }

    /** The reply editor's change handler. */
    method SetNewReply(text: string)
      modifies this
      ensures newReply == text
    {
      newReply := text;
    }

    /** The render's `replies.sort(...)`: the replies array of the first
        cached post with the id is sorted in place, so that post now holds its
        replies by non-increasing upvotes, and the handlers below build on that
        order. */
    method ShowReplies(data: DataContext.DataCache) returns (shown: seq<ForumReply>)
      requires Find(DataContext.SamePostId(postId), data.forumPosts).Some?
      modifies data
      ensures var i := old(FirstIndex(DataContext.SamePostId(postId), data.forumPosts)).value;
        var cur := old(data.forumPosts)[i];
        && DescendingUpvotes(shown) && multiset(shown) == multiset(cur.replies)
        && data.View() == old(data.View()).(forumPosts := old(data.forumPosts)[i := cur.(replies := shown)])
      ensures data.loading == old(data.loading) && data.usersShared == old(data.usersShared)
    {
      var i := FirstIndex(DataContext.SamePostId(postId), data.forumPosts).value;
      var cur := data.forumPosts[i];
      var a := new ForumReply[|cur.replies|](k requires 0 <= k < |cur.replies| => cur.replies[k]);
      assert a[..] == cur.replies;
      SortReplies(a);
      shown := a[..];
      data.forumPosts := data.forumPosts[i := cur.(replies := shown)];
    }

    /** `handleUpvote`: the current post, with the reply upvoted, replaces the
        cached post (optimistically); the replies keep the order the last
        render left them in. */
    method HandleUpvote(data: DataContext.DataCache, replyId: string)
      requires Find(DataContext.SamePostId(postId), data.forumPosts).Some?
      modifies data
      ensures var cur := old(Find(DataContext.SamePostId(postId), data.forumPosts).value);
        data.View() == old(data.View()).(forumPosts :=
          MapReplace(old(data.forumPosts), DataContext.SamePostId(postId), cur.(replies := Upvote(cur.replies, replyId))))
      ensures data.loading == old(data.loading) && data.usersShared == old(data.usersShared)
    {
      var cur := Find(DataContext.SamePostId(postId), data.forumPosts).value;
      data.UpdateForumPost(cur.(replies := Upvote(cur.replies, replyId)), true);
    }

    /** `handlePostReply`: nothing for blank text or without the cache's
        signed-in user; otherwise
        the current post, with the new reply after the replies in the order
        the last render left them, replaces the cached post, the editor is
        cleared and a success toast is raised. */
    method HandlePostReply(data: DataContext.DataCache, notes: Notifications.NotificationQueue,
                           freshId: string, stamp: string)
      requires Find(DataContext.SamePostId(postId), data.forumPosts).Some?
      modifies this, data, notes
      ensures IsBlank(old(newReply)) || old(data.user).None? ==>
        && newReply == old(newReply) && data.View() == old(data.View())
        && notes.notifications == old(notes.notifications)
      ensures !IsBlank(old(newReply)) && old(data.user).Some? ==>
        var cur := old(Find(DataContext.SamePostId(postId), data.forumPosts).value);
        var reply := NewReply(freshId, old(data.user).value, old(newReply));
        && data.View() == old(data.View()).(forumPosts :=
             MapReplace(old(data.forumPosts), DataContext.SamePostId(postId), cur.(replies := cur.replies + [reply])))
        && newReply == ""
        && notes.notifications == old(notes.notifications) + [Notification(stamp, Success, "Reply posted!")]
      ensures data.loading == old(data.loading) && data.usersShared == old(data.usersShared)
    {
      if IsBlank(newReply) || data.user.None? {
        return;
      }
      var cur := Find(DataContext.SamePostId(postId), data.forumPosts).value;
      var reply := NewReply(freshId, data.user.value, newReply);
      data.UpdateForumPost(cur.(replies := cur.replies + [reply]), false);
      newReply := "";
      notes.Add(Success, "Reply posted!", stamp);
    }
  }
}
