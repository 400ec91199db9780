/**
 * The records the application passes around. JavaScript objects whose keys
 * may be missing are modelled with `Option` where a missing key changes
 * behaviour (`post.comments || []`, `comment.likedBy?.includes`), and with the
 * empty string where the code only tests the value for truthiness (`post._id`,
 * `post.imgUrl`), since an absent key and `''` are both falsy there.
 */
module Entities {
  import opened Wrappers

  /** A user. The "mini user" `{_id, fullname, imgUrl}` that posts and comments
      copy from the logged-in user is a `User` whose username is empty. */
  datatype User = User(id: string, username: string, fullname: string, imgUrl: string)

  /** `{ _id: user._id, fullname: user.fullname, imgUrl: user.imgUrl }`. */
  function Brief(u: User): User {
    User(u.id, "", u.fullname, u.imgUrl)
  }

  datatype Loc = Loc(lat: real, lng: real, name: string)

  /** A comment; `author` is its `by` key (a keyword in Dafny), `likedBy` holds user ids. */
  datatype Comment = Comment(
    id: string,
    date: string,
    author: Option<User>,
    txt: string,
    likedBy: Option<seq<string>>)

  /** A post; `author` is its `by` key, `likedBy` holds mini users. `likesCount` and `description` are
      read by the query filter but are not among the fields a query returns. */
  datatype Post = Post(
    id: string,
    txt: string,
    imgUrl: string,
    author: Option<User>,
    loc: Option<Loc>,
    comments: Option<seq<Comment>>,
    likedBy: Option<seq<User>>,
    tags: Option<seq<string>>,
    likesCount: Option<int>,
    description: string)

  /** A browser `File`: its name, MIME type and size in bytes. */
  datatype File = File(name: string, mimeType: string, size: nat)

  /** `xs || []` for an array-valued key. */
  function OrEmpty<T>(xs: Option<seq<T>>): seq<T> {
    match xs
    case Some(s) => s
    case None => []
  }

}
