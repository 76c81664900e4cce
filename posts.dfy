/**
 * The post routes: a table of posts, each with an author, a caption, an
 * optional image, the set of users who like it, a separately stored like
 * counter, an append-only list of comments and a creation time. The five
 * handlers (create, list, like toggle, comment, delete) are the methods of
 * `PostStore`; each request runs alone and to completion. Post ids are drawn
 * from a counter, standing for the database's fresh object ids, and the clock
 * is a parameter.
 */
module Posts {
  import opened Wrappers
  import Upload

  /** A user id as a request body carries it: the text of the database id. */
  type UserId = string
  type PostId = nat

  datatype Comment = Comment(userId: UserId, text: string)

  datatype Post = Post(
    id: PostId,
    userId: UserId,
    caption: string,
    image: Option<string>,
    likes: set<UserId>,
    likeCount: int,
    comments: seq<Comment>,
    createdAt: int)

  /** A file multer wrote for this route; `uploadedAt` is the clock reading
      its stored name was built from. The route installs no file filter, so
      any MIME type arrives here. */
  datatype UploadedFile = UploadedFile(originalname: string, mimetype: string, uploadedAt: nat)

  /** An HTTP answer: status, message and, where the route sends one, the post. */
  datatype Reply = Reply(status: nat, message: string, post: Option<Post>)

  const MissingFieldsMessage: string := "User ID and caption are required."
  const CreatedMessage: string := "Post created successfully"
  const NotFoundMessage: string := "Post not found"
  const LikedMessage: string := "Like updated"
  const CommentedMessage: string := "Comment added"
  const DeletedMessage: string := "Post deleted successfully"

  /** JavaScript truthiness of a form field: present and not the empty string. */
  predicate Truthy(field: Option<string>) { field.Some? && field.value != "" }

  /** The like counter caches the size of the likes set. */
  ghost predicate Consistent(p: Post) { p.likeCount == |p.likes| }

  /** The public path of an uploaded file. */
  function UploadedImagePath(f: UploadedFile): (path: string)
    ensures |path| > 9 + |f.originalname|
    ensures path[..9] == "/uploads/"
    ensures path[|path| - |f.originalname|..] == f.originalname
  {
    "/uploads/" + Upload.StoredFilename(f.uploadedAt, f.originalname)
  }

  /** The image a new post gets: the uploaded file if there is one, otherwise
      the `imageUrl` field as sent, which may be absent. */
  function ChooseImage(imageUrl: Option<string>, file: Option<UploadedFile>): (image: Option<string>)
    ensures file.None? ==> image == imageUrl
    ensures file.Some? ==> image == Some(UploadedImagePath(file.value))
  {
    match file
    case None => imageUrl
    case Some(f) => Some(UploadedImagePath(f))
  }

  /** The file wins over the URL: with a file uploaded, the URL sent beside it
      has no effect on the post's image. */
  lemma FileOverridesUrl(url1: Option<string>, url2: Option<string>, f: UploadedFile)
    ensures ChooseImage(url1, Some(f)) == ChooseImage(url2, Some(f))
  {
  }

  /** Post creation does not share the image-only filter of the upload
      middleware: a plain-text upload is refused there but becomes a post's
      image here. */
  lemma NonImageUploadAccepted(url: Option<string>)
    ensures var f := UploadedFile("notes.txt", "text/plain", 0);
      Upload.FileFilter(f.mimetype) == Upload.Reject(Upload.NotAnImage) &&
      ChooseImage(url, Some(f)) == Some(UploadedImagePath(f))
  {
    assert "text/plain"[0] != Upload.ImagePrefix[0];
  }

  /** A fresh post document, with the schema defaults: nobody likes it, the
      counter is 0 and there are no comments. */
  function NewPost(id: PostId, userId: UserId, caption: string, image: Option<string>, now: int): (p: Post)
    ensures p.likes == {} && p.likeCount == 0 && p.comments == [] && Consistent(p)
    ensures p.id == id && p.userId == userId && p.caption == caption && p.image == image
    ensures p.createdAt == now
  {
    Post(id, userId, caption, image, {}, 0, [], now)
  }

  /** One like toggle: the user's membership flips; unliking lowers the
      counter but never below zero, liking raises it by one. */
  function ToggleLike(p: Post, u: UserId): (q: Post)
    ensures (u in q.likes) <==> (u !in p.likes)
    ensures q.likes - {u} == p.likes - {u}
    ensures u in p.likes ==> q.likeCount == if p.likeCount > 0 then p.likeCount - 1 else 0
    ensures u !in p.likes ==> q.likeCount == p.likeCount + 1
    ensures q == p.(likes := q.likes, likeCount := q.likeCount)
  {
    if u in p.likes then
      p.(likes := p.likes - {u}, likeCount := if p.likeCount - 1 > 0 then p.likeCount - 1 else 0)
    else
      p.(likes := p.likes + {u}, likeCount := p.likeCount + 1)
  }

  /** A toggle keeps the counter equal to the size of the likes set, provided
      it was equal before; the counter is then never negative. */
  lemma ToggleKeepsConsistent(p: Post, u: UserId)
    requires Consistent(p)
    ensures Consistent(ToggleLike(p, u)) && ToggleLike(p, u).likeCount >= 0
  {
  }

  /** The counter is never negative after an unlike, and after a like it is
      not negative when it was not before. */
  lemma ToggleCountNonNegative(p: Post, u: UserId)
    requires u in p.likes || p.likeCount >= 0
    ensures ToggleLike(p, u).likeCount >= 0
  {
  }

  /** Liking then unliking (or unliking then liking) as the same user gives
      back the original post on a consistent post. */
  lemma ToggleTwiceRestores(p: Post, u: UserId)
    requires Consistent(p)
    ensures ToggleLike(ToggleLike(p, u), u) == p
  {
  }

  /** Two toggles by the same user need not restore a stale post: on a post
      liked by `u` and `v` that counts 0 likes, the zero floor turns the two
      toggles of `u` into a net gain of one, and the counter is still stale
      afterwards. */
  lemma ToggleTwiceOnStaleCounter(u: UserId, v: UserId)
    requires u != v
    ensures var p := Post(0, "author", "caption", None, {u, v}, 0, [], 0);
      var q := ToggleLike(ToggleLike(p, u), u);
      !Consistent(p) && q.likes == p.likes && q.likeCount == 1 && q != p && !Consistent(q)
  {
  }

  /** Exactly when two toggles by the same user give back the post: the
      zero floor must not have cut in, so the counter is at least 1 when the
      user already likes the post, and at least 0 when not. */
  lemma ToggleTwiceRestoresExactly(p: Post, u: UserId)
    ensures ToggleLike(ToggleLike(p, u), u) == p <==>
      (if u in p.likes then p.likeCount >= 1 else p.likeCount >= 0)
  {
    var q := ToggleLike(ToggleLike(p, u), u);
    if u in p.likes {
      if p.likeCount < 1 {
        assert q.likeCount == 1 != p.likeCount;
      }
    } else {
      if p.likeCount < 0 {
        assert q.likeCount == 0 != p.likeCount;
      }
    }
  }

  /** Appending a comment. */
  function AddComment(p: Post, u: UserId, text: string): (q: Post)
    ensures |q.comments| == |p.comments| + 1
    ensures q.comments[..|p.comments|] == p.comments && q.comments[|p.comments|] == Comment(u, text)
    ensures q == p.(comments := q.comments)
  {
    p.(comments := p.comments + [Comment(u, text)])
  }

  /** Comments appended one after another appear in the order they were sent. */
  lemma {:induction false} CommentsInArrivalOrder(p: Post, sent: seq<Comment>)
    ensures AddAll(p, sent).comments == p.comments + sent
    ensures AddAll(p, sent) == p.(comments := p.comments + sent)
    decreases |sent|
  {
    if sent != [] {
      CommentsInArrivalOrder(AddComment(p, sent[0].userId, sent[0].text), sent[1..]);
      assert p.comments + [sent[0]] + sent[1..] == p.comments + sent;
    }
  }

  /** The post after each comment of `sent` has been added in turn. */
  function AddAll(p: Post, sent: seq<Comment>): Post
    decreases |sent|
  {
    if sent == [] then p else AddAll(AddComment(p, sent[0].userId, sent[0].text), sent[1..])
  }

  predicate Distinct(ids: seq<PostId>)
  {
    forall i, j :: 0 <= i < j < |ids| ==> ids[i] != ids[j]
  }

  /** `ids` without `x`. */
  function Without(ids: seq<PostId>, x: PostId): (r: seq<PostId>)
    ensures forall y :: y in r <==> y in ids && y != x
    ensures Distinct(ids) ==> Distinct(r)
    ensures Distinct(ids) && x in ids ==> |r| == |ids| - 1
    ensures x !in ids ==> r == ids
  {
    if ids == [] then []
    else if ids[0] == x then Without(ids[1..], x)
    else
      var rest := Without(ids[1..], x);
      assert Distinct(ids) ==> Distinct(ids[1..]) && ids[0] !in ids[1..];
      [ids[0]] + rest
  }

  /** Newest first: creation times never increase along the sequence. */
  predicate NewestFirst(s: seq<Post>)
  {
    forall i, j :: 0 <= i < j < |s| ==> s[i].createdAt >= s[j].createdAt
  }

  function InsertNewestFirst(p: Post, s: seq<Post>): (r: seq<Post>)
    requires NewestFirst(s)
    ensures NewestFirst(r)
    ensures multiset(r) == multiset(s) + multiset{p}
    ensures |r| > 0 && (r[0] == p || (s != [] && r[0] == s[0]))
  {
    if s == [] || p.createdAt >= s[0].createdAt then [p] + s
    else
      assert s == [s[0]] + s[1..];
      [s[0]] + InsertNewestFirst(p, s[1..])
  }

  /** The order `sort({ createdAt: -1 })` returns; posts created at the same
      instant may come in either order. */
  function SortNewestFirst(s: seq<Post>): (r: seq<Post>)
    ensures NewestFirst(r)
    ensures multiset(r) == multiset(s)
  {
    if s == [] then []
    else
      assert s == [s[0]] + s[1..];
      InsertNewestFirst(s[0], SortNewestFirst(s[1..]))
  }

  /** The posts of `ids`, in that order. */
  function InOrder(ids: seq<PostId>, posts: map<PostId, Post>): (s: seq<Post>)
    requires forall i :: 0 <= i < |ids| ==> ids[i] in posts
    ensures |s| == |ids| && forall i :: 0 <= i < |ids| ==> s[i] == posts[ids[i]]
  {
    if ids == [] then [] else [posts[ids[0]]] + InOrder(ids[1..], posts)
  }

  /** `order` lists every id of `posts` exactly once. */
  ghost predicate ScanOrder(order: seq<PostId>, posts: map<PostId, Post>)
  {
    && (forall i :: 0 <= i < |order| ==> order[i] in posts)
    && (forall k :: k in posts ==> k in order)
    && Distinct(order)
    && |order| == |posts|
  }

  /** Removing a post and its id keeps the scan order exact. */
  lemma RemoveKeepsScanOrder(order: seq<PostId>, posts: map<PostId, Post>, postId: PostId)
    requires ScanOrder(order, posts) && postId in posts
    ensures ScanOrder(Without(order, postId), posts - {postId})
  {
    var rest := posts - {postId};
    var kept := Without(order, postId);
    assert |rest| == |posts| - 1 by {
      assert rest.Keys == posts.Keys - {postId};
    }
    assert |kept| == |order| - 1 by {
      assert postId in order;
    }
    forall i | 0 <= i < |kept|
      ensures kept[i] in rest
    {
      assert kept[i] in kept;
    }
    forall k | k in rest
      ensures k in kept
    {
      assert k in order;
    }
  }

  class PostStore {
    /** The post collection, by id. */
    var posts: map<PostId, Post>
    /** The ids in insertion order, which is the order the collection is scanned in. */
    var order: seq<PostId>
    /** The next id to hand out. */
    var nextId: nat

    ghost predicate Valid()
      reads this
    {
      && (forall k :: k in posts ==> posts[k].id == k && k < nextId && Consistent(posts[k]))
      && ScanOrder(order, posts)
    }

    constructor ()
      ensures Valid() && posts == map[]
    {
      posts, order, nextId := map[], [], 0;
    }

    /** POST /create */
    method Create(userId: Option<UserId>, caption: Option<string>, imageUrl: Option<string>,
                  file: Option<UploadedFile>, now: int) returns (r: Reply)
      requires Valid()
      modifies this
      ensures Valid()
      ensures !(Truthy(userId) && Truthy(caption)) ==>
        && r == Reply(400, MissingFieldsMessage, None)
        && posts == old(posts) && order == old(order) && nextId == old(nextId)
      ensures Truthy(userId) && Truthy(caption) ==>
        var p := NewPost(old(nextId), userId.value, caption.value, ChooseImage(imageUrl, file), now);
        && old(nextId) !in old(posts)
        && posts == old(posts)[old(nextId) := p]
        && order == old(order) + [old(nextId)] && nextId == old(nextId) + 1
        && r == Reply(201, CreatedMessage, Some(p))
    {
      if !(Truthy(userId) && Truthy(caption)) {
        return Reply(400, MissingFieldsMessage, None);
      }
      var image := imageUrl;
      if file.Some? {
        image := Some(UploadedImagePath(file.value));
      }
      var p := NewPost(nextId, userId.value, caption.value, image, now);
      posts := posts[nextId := p];
      order := order + [nextId];
      nextId := nextId + 1;
      r := Reply(201, CreatedMessage, Some(p));
    }

    /** GET / : every post exactly once, newest first; nothing changes. */
    method List() returns (r: seq<Post>)
      requires Valid()
      ensures NewestFirst(r)
      ensures |r| == |posts|
      ensures forall p :: p in r ==> p.id in posts && posts[p.id] == p
      ensures forall k :: k in posts ==> posts[k] in r
    {
      var scanned := InOrder(order, posts);
      r := SortNewestFirst(scanned);
      forall p | p in r
        ensures p.id in posts && posts[p.id] == p
      {
        assert p in multiset(scanned);
        var i :| 0 <= i < |scanned| && scanned[i] == p;
        assert p == posts[order[i]];
      }
      forall k | k in posts
        ensures posts[k] in r
      {
        var i :| 0 <= i < |order| && order[i] == k;
        assert scanned[i] == posts[k];
        assert posts[k] in multiset(r);
      }
    }

    /** PUT /like/:postId */
    method Like(postId: PostId, userId: UserId) returns (r: Reply)
      requires Valid()
      modifies this
      ensures Valid() && order == old(order) && nextId == old(nextId)
      ensures postId !in old(posts) ==> r == Reply(404, NotFoundMessage, None) && posts == old(posts)
      ensures postId in old(posts) ==>
        var q := ToggleLike(old(posts)[postId], userId);
        posts == old(posts)[postId := q] && r == Reply(200, LikedMessage, Some(q))
    {
      if postId !in posts {
        return Reply(404, NotFoundMessage, None);
      }
      var post := posts[postId];
      if userId in post.likes {
        post := post.(likes := post.likes - {userId});
        post := post.(likeCount := if post.likeCount - 1 > 0 then post.likeCount - 1 else 0);
      } else {
        post := post.(likes := post.likes + {userId});
        post := post.(likeCount := post.likeCount + 1);
      }
      ToggleKeepsConsistent(posts[postId], userId);
      posts := posts[postId := post];
      r := Reply(200, LikedMessage, Some(post));
    }

    /** POST /comment/:postId */
    method AddCommentTo(postId: PostId, userId: UserId, text: string) returns (r: Reply)
      requires Valid()
      modifies this
      ensures Valid() && order == old(order) && nextId == old(nextId)
      ensures postId !in old(posts) ==> r == Reply(404, NotFoundMessage, None) && posts == old(posts)
      ensures postId in old(posts) ==>
        var q := AddComment(old(posts)[postId], userId, text);
        posts == old(posts)[postId := q] && r == Reply(200, CommentedMessage, Some(q))
    {
      if postId !in posts {
        return Reply(404, NotFoundMessage, None);
      }
      var post := posts[postId];
      post := post.(comments := post.comments + [Comment(userId, text)]);
      posts := posts[postId := post];
      r := Reply(200, CommentedMessage, Some(post));
    }

    /** DELETE /:postId : afterwards the id is unknown, so a later like,
        comment or delete on it answers 404. */
    method Delete(postId: PostId) returns (r: Reply)
      requires Valid()
      modifies this
      ensures Valid() && nextId == old(nextId)
      ensures postId !in posts
      ensures postId !in old(posts) ==>
        r == Reply(404, NotFoundMessage, None) && posts == old(posts) && order == old(order)
      ensures postId in old(posts) ==>
        posts == old(posts) - {postId} && r == Reply(200, DeletedMessage, None)
    {
      if postId !in posts {
        return Reply(404, NotFoundMessage, None);
      }
      RemoveKeepsScanOrder(order, posts, postId);
      posts := posts - {postId};
      order := Without(order, postId);
      r := Reply(200, DeletedMessage, None);
    }
  }

  /** A deleted post stays gone: ids are never handed out again, so after a
      delete and any later create, liking, commenting on or deleting that id
      answers 404. */
  method DeletedPostStaysGone(store: PostStore, postId: PostId, userId: Option<UserId>, caption: Option<string>,
                              imageUrl: Option<string>, file: Option<UploadedFile>, now: int,
                              liker: UserId, text: string)
    returns (like: Reply, comment: Reply, delete: Reply)
    requires store.Valid() && postId in store.posts
    modifies store
    ensures like == Reply(404, NotFoundMessage, None)
    ensures comment == Reply(404, NotFoundMessage, None)
    ensures delete == Reply(404, NotFoundMessage, None)
  {
    var deleted := store.Delete(postId);
    var created := store.Create(userId, caption, imageUrl, file, now);
    like := store.Like(postId, liker);
    comment := store.AddCommentTo(postId, liker, text);
    delete := store.Delete(postId);
  }
}
