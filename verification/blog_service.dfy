/** The blog service's store-changing handlers
    (services/blog-service/BlogService/BlogService/Services/BlogGrpcService.cs) over its
    three Mongo collections. A blog keeps `LikeCount` and `CommentCount`, which the
    handlers raise and lower next to each insert and delete; the invariant is that for every
    stored blog they equal the number of its likes and comments. */
module BlogService {
  import opened Wrappers
  import opened ObjectIds
  import opened BlogSpec

  class BlogGrpcService {
    var blogs: map<ObjectId, Blog>
    /** The comment and like collections in insertion order. */
    var comments: seq<Comment>
    var likes: seq<Like>
    /** Source of fresh ObjectIds for comments and likes. */
    var nextId: nat

    ghost predicate Valid()
      reads this
    {
      && (forall id :: id in blogs ==> blogs[id].id == id)
      && (forall id :: id in blogs ==> blogs[id].likeCount == LikesOf(likes, id))
      && (forall id :: id in blogs ==> blogs[id].commentCount == CommentsOf(comments, id))
      && UniqueLikes(likes)
      && NilId < nextId
    }

    constructor ()
      ensures Valid() && blogs == map[] && comments == [] && likes == [] && nextId == NilId + 1
    {
      blogs, comments, likes, nextId := map[], [], [], NilId + 1;
    }

    /** A new blog starts with no likes and no comments. Its id comes from the driver; the
        model asks for one that no blog, comment or like mentions yet. That freshness is an
        assumption of the model: likes and comments may be stored under an id that matches
        no blog, and nothing in the service keeps a new id away from them. */
    method CreateBlog(id: ObjectId, userId: UserId, username: string, title: string, description: string,
                      images: seq<string>, now: Time) returns (blog: Blog)
      requires Valid()
      requires id !in blogs && LikesOf(likes, id) == 0 && CommentsOf(comments, id) == 0
      modifies this`blogs
      ensures Valid()
      ensures blog == Blog(id, userId, username, title, description, images, now, 0, 0)
      ensures blogs == old(blogs)[id := blog]
    {
      blog := Blog(id, userId, username, title, description, images, now, 0, 0);
      blogs := blogs[id := blog];
    }

    method GetBlogById(blogId: ObjectId) returns (r: Result<Blog, BlogError>)
      ensures blogId in blogs <==> r.Success?
      ensures r.Success? ==> r.value == blogs[blogId]
      ensures r.Failure? ==> r.error == BlogNotFound
    {
      if blogId !in blogs {
        return Failure(BlogNotFound);
      }
      r := Success(blogs[blogId]);
    }

    /** An unknown blog, or a blog of someone the commenter does not follow, is refused
        and nothing changes; the author may always comment. Otherwise one comment is
        inserted and the blog's comment count goes up by one. */
    method AddComment(blogId: ObjectId, userId: UserId, username: string, text: string, now: Time,
                      isFollowing: FollowsFn) returns (r: Result<Comment, BlogError>)
      requires Valid()
      modifies this`comments, this`blogs, this`nextId
      ensures Valid()
      ensures blogId !in old(blogs) ==>
        r == Failure(BlogNotFound) && unchanged(this)
      ensures blogId in old(blogs) && old(blogs)[blogId].userId != userId && !isFollowing(userId, old(blogs)[blogId].userId) ==>
        r == Failure(NotFollowing) && unchanged(this)
      ensures blogId in old(blogs) && (old(blogs)[blogId].userId == userId || isFollowing(userId, old(blogs)[blogId].userId)) ==>
        && r == Success(Comment(old(nextId), blogId, userId, username, text, now, now))
        && comments == old(comments) + [r.value]
        && blogs == old(blogs)[blogId := old(blogs)[blogId].(commentCount := old(blogs)[blogId].commentCount + 1)]
        && nextId == old(nextId) + 1
    {
      if blogId !in blogs {
        return Failure(BlogNotFound);
      }
      var blog := blogs[blogId];
      if blog.userId != userId {
        var following := isFollowing(userId, blog.userId);
        if !following {
          return Failure(NotFollowing);
        }
      }
      var comment := Comment(nextId, blogId, userId, username, text, now, now);
      nextId := nextId + 1;
      forall id | id in blogs
        ensures CommentsOf(comments + [comment], id) == CommentsOf(comments, id) + (if id == blogId then 1 else 0)
      {
        CommentsOfInsert(comments, comment, id);
      }
      comments := comments + [comment];
      blogs := blogs[blogId := blog.(commentCount := blog.commentCount + 1)];
      r := Success(comment);
    }

    /** A second like by the same user is refused and nothing changes. Otherwise one like
        is inserted, for a blog that need not exist; an existing blog's like count goes up
        by one. The answer is the blog's new count, or 0 when there is no such blog. */
    method LikeBlog(blogId: ObjectId, userId: UserId, now: Time) returns (r: Result<int, BlogError>)
      requires Valid()
      modifies this`likes, this`blogs, this`nextId
      ensures Valid()
      ensures Liked(old(likes), blogId, userId) ==> r == Failure(AlreadyLiked) && unchanged(this)
      ensures !Liked(old(likes), blogId, userId) ==>
        && likes == old(likes) + [Like(old(nextId), blogId, userId, now)]
        && nextId == old(nextId) + 1
        && (blogId in old(blogs) ==>
              && blogs == old(blogs)[blogId := old(blogs)[blogId].(likeCount := old(blogs)[blogId].likeCount + 1)]
              && r == Success(blogs[blogId].likeCount))
        && (blogId !in old(blogs) ==> blogs == old(blogs) && r == Success(0))
      ensures Liked(likes, blogId, userId)
      ensures r.Success? && blogId in blogs ==> r.value == LikesOf(likes, blogId)
    {
      var existing := FindLike(likes, blogId, userId, 0);
      FindLikeIffLiked(likes, blogId, userId);
      if existing.Some? {
        return Failure(AlreadyLiked);
      }
      var like := Like(nextId, blogId, userId, now);
      nextId := nextId + 1;
      InsertKeepsLikesUnique(likes, like);
      forall id | id in blogs
        ensures LikesOf(likes + [like], id) == LikesOf(likes, id) + (if id == blogId then 1 else 0)
      {
        LikesOfInsert(likes, like, id);
      }
      likes := likes + [like];
      if blogId in blogs {
        blogs := blogs[blogId := blogs[blogId].(likeCount := blogs[blogId].likeCount + 1)];
        r := Success(blogs[blogId].likeCount);
      } else {
        r := Success(0);
      }
    }

    /** Without a like by this user nothing changes. Otherwise that like is deleted and an
        existing blog's like count goes down by one; the answer is as for `LikeBlog`. */
    method UnlikeBlog(blogId: ObjectId, userId: UserId) returns (r: Result<int, BlogError>)
      requires Valid()
      modifies this`likes, this`blogs
      ensures Valid()
      ensures !Liked(old(likes), blogId, userId) ==> r == Failure(LikeNotFound) && unchanged(this)
      ensures Liked(old(likes), blogId, userId) ==>
        && var i := FindLike(old(likes), blogId, userId, 0).value;
        && likes == old(likes)[..i] + old(likes)[i + 1..]
        && (blogId in old(blogs) ==>
              && blogs == old(blogs)[blogId := old(blogs)[blogId].(likeCount := old(blogs)[blogId].likeCount - 1)]
              && r == Success(blogs[blogId].likeCount))
        && (blogId !in old(blogs) ==> blogs == old(blogs) && r == Success(0))
      ensures !Liked(likes, blogId, userId)
      ensures r.Success? && blogId in blogs ==> r.value == LikesOf(likes, blogId)
    {
      var existing := FindLike(likes, blogId, userId, 0);
      FindLikeIffLiked(likes, blogId, userId);
      if existing.None? {
        return Failure(LikeNotFound);
      }
      var i := existing.value;
      DeleteUnlikes(likes, i);
      forall id | id in blogs
        ensures LikesOf(likes[..i] + likes[i + 1..], id) == LikesOf(likes, id) - (if id == blogId then 1 else 0)
      {
        LikesOfDelete(likes, i, id);
      }
      likes := likes[..i] + likes[i + 1..];
      if blogId in blogs {
        blogs := blogs[blogId := blogs[blogId].(likeCount := blogs[blogId].likeCount - 1)];
        r := Success(blogs[blogId].likeCount);
      } else {
        r := Success(0);
      }
    }
  }
}
