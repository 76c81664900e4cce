# Social-media backend: posts, password reset, uploads and bearer tokens in Dafny

This project models the request handlers of a small Express/Mongoose social-media
backend and proves what they promise. It has four parts:

- **Post routes** (`posts.dfy`, module `Posts`). The class `PostStore` holds the post
  collection as a map from post id to a `Post` record. A record has the author, caption,
  optional image, the set of users who like the post, a separately stored `likeCount`,
  an append-only list of comments and `createdAt`. The five handlers are methods:
  create, list, like toggle, comment and delete. The store invariant `Valid()` includes
  `likeCount == |likes|` for every post. The handlers never check this equation directly:
  a toggle preserves it whenever it held before (`ToggleKeepsConsistent`). Creation adds
  posts with the schema defaults, so the invariant holds from the start.
- **Authentication routes** (`auth_routes.dfy`, module `AuthRoutes`). The class
  `UserStore` holds the user collection keyed by its unique email. The four handlers are
  register, login, forgot-password and reset-password. A reset token is valid for one
  hour (3600000 ms). The expiry test is strict. Redeeming a token clears the token and
  its expiry together.
- **Upload middleware** (`upload.dfy`, module `Upload`). It has the image-only MIME
  filter, the stored file name `<timestamp>-<originalname>` and the `uploads/`
  destination.
- **Authentication middleware** (`auth_middleware.dfy`, module `AuthMiddleware`). It
  takes the token from the second space-separated field of the `Authorization` header.
  The outcome is 401, 403 or a call to `next` with the decoded user id. The scheme word
  in front of the token is never checked.

Several outside services are parameters of the model:

- bcrypt is a `Bcrypt` value holding a hash function and a compare function. `Sound(b)`
  states bcrypt's promise that a password matches every digest made from it.
- `crypto.randomBytes` becomes the token parameter of forgot-password.
- `Date.now()` becomes a clock parameter: `now`, or the upload time carried by a file.
- JWT signing and verification become function parameters (`sign`, `verify`).
- Database object ids come from a counter in each store.

Each request runs alone and to completion.

In four places the code does less than a reader would expect, and the model follows the code:

- Post creation uses its own multer instance, and that instance has no file filter. A
  non-image upload therefore becomes a post's image (`NonImageUploadAccepted`). One would
  expect only images to be accepted, as `middleware/upload.js` does.
- Creation does not require exactly one of file and URL. When both are sent, the file
  wins.
- Delete does no ownership check. Any caller can delete any post.
- Registration's 201 reply carries the whole stored user document, including the hashed
  password. Login's reply shows only the profile.

## Model

| member | source | states |
|---|---|---|
| `Upload.StoredFilename` | middleware/upload.js:9-11 | The stored name is the decimal upload time, a dash, then the original name, so it always ends with the original name |
| `Upload.ParseDecimalOfDecimal` | middleware/upload.js:10 | The decimal text of the timestamp reads back as the same number |
| `Upload.ParseStoredFilenameOfStoredFilename` | middleware/upload.js:10 | A stored name splits at its first dash back into the upload time and the original name |
| `Upload.StoredFilenameInjective` | middleware/upload.js:10 | Two uploads get the same stored name only if both the time and the original name agree |
| `Upload.DiskPath` | middleware/upload.js:5-12 | Every file is written under `uploads/`, whatever the file, and the path ends with its original name |
| `Upload.FileFilter` | middleware/upload.js:15-21 | A rejection always carries the error "Only images are allowed!" |
| `Upload.FileFilterAcceptsImages` | middleware/upload.js:16-17 | Every `image/<subtype>` MIME type is accepted |
| `Upload.FileFilterOnlyImages` | middleware/upload.js:16-19 | An accepted type is `image/` plus a subtype; any other type is rejected with the images-only error |
| `AuthMiddleware.Split` | middleware/authMiddleware.js:6 | JavaScript `split(" ")`: at least one field, and no field contains the separator |
| `AuthMiddleware.JoinSplit` | middleware/authMiddleware.js:6 | Splitting loses nothing: the fields joined with spaces give back the header |
| `AuthMiddleware.SplitJoin` | middleware/authMiddleware.js:6 | Splitting is the exact inverse of joining space-free fields |
| `AuthMiddleware.HeaderToken` | middleware/authMiddleware.js:6-10 | A token that is found is non-empty and has no space in it |
| `AuthMiddleware.Authenticate` | middleware/authMiddleware.js:3-20 | The only denials are 401 "Access Denied! No token provided." and 403 "Invalid or expired token!"; a pass carries the id the verifier decoded from the header's token |
| `AuthMiddleware.MissingHeaderDenied` | middleware/authMiddleware.js:6-10 | No `Authorization` header gives 401, and `next` is not called |
| `AuthMiddleware.TokenIsSecondField` | middleware/authMiddleware.js:6 | The token is the field after the first space, up to the next space or the end |
| `AuthMiddleware.TokenComesAfterFirstSpace` | middleware/authMiddleware.js:6 | Conversely, a found token is preceded by one space-free word and a space, and is followed by nothing or by a space |
| `AuthMiddleware.SchemeIgnored` | middleware/authMiddleware.js:6 | Any space-free word in front of the same remainder gives the same outcome, so `Bearer` is never checked |
| `AuthMiddleware.NoSpaceDenied` | middleware/authMiddleware.js:6-10 | A header with no space (a bare `Bearer`, say) gives 401 |
| `AuthMiddleware.EmptySecondFieldDenied` | middleware/authMiddleware.js:6-10 | An empty second field gives 401, whether the header ends right after the first space (`"Bearer "`) or another space follows (`"Bearer  x"`) |
| `AuthMiddleware.NoTokenDenied` | middleware/authMiddleware.js:6-10 | Whenever the header yields no token, the answer is 401, never 403 |
| `AuthMiddleware.UnverifiedTokenForbidden` | middleware/authMiddleware.js:13-18 | A token that fails verification gives 403, and `next` is not called |
| `AuthMiddleware.VerifiedTokenPasses` | middleware/authMiddleware.js:13-16 | A verified token sets `req.user` to the decoded id and calls `next` |
| `Posts.UploadedImagePath` | routes/postRoutes.js:20-22 | An uploaded file's image path starts with `/uploads/` and ends with the original file name |
| `Posts.ChooseImage` | routes/postRoutes.js:42-45 | The image is the uploaded file's path when there is a file, and otherwise the `imageUrl` field as sent, possibly absent |
| `Posts.FileOverridesUrl` | routes/postRoutes.js:42-45 | With a file uploaded, the URL sent beside it has no effect |
| `Posts.NonImageUploadAccepted` | routes/postRoutes.js:25 | Post creation has no MIME filter: a `text/plain` upload that the upload middleware refuses still becomes the post's image |
| `Posts.NewPost` | routes/postRoutes.js:49-53 | A new post carries the given id, author, caption, image and creation time, and starts with no likes, a count of 0 and no comments (schema defaults), hence consistent |
| `Posts.ToggleLike` | routes/postRoutes.js:96-104 | The user's membership flips and no other user's changes; unlike sets the count to max(0, count-1), like adds 1; no other field changes |
| `Posts.ToggleKeepsConsistent` | routes/postRoutes.js:96-104 | If `likeCount == \|likes\|` held before a toggle, it holds after, and the count is non-negative |
| `Posts.ToggleCountNonNegative` | routes/postRoutes.js:99-103 | After an unlike the count is never negative; after a like it is not negative if it was not before |
| `Posts.ToggleTwiceRestores` | routes/postRoutes.js:96-104 | Two toggles by the same user on a consistent post give back the original likes and count |
| `Posts.ToggleTwiceOnStaleCounter` | routes/postRoutes.js:96-104 | Two toggles need not restore a stale post: a post liked by u and v with count 0 ends with the same likes, count 1, and still stale |
| `Posts.ToggleTwiceRestoresExactly` | routes/postRoutes.js:96-104 | Two toggles by the same user give back the post exactly when the zero floor does not cut in: count at least 1 if the user already likes it, at least 0 otherwise |
| `Posts.AddComment` | routes/postRoutes.js:130 | Appends exactly `{userId, text}` at the end; earlier comments and every other field are unchanged |
| `Posts.CommentsInArrivalOrder` | routes/postRoutes.js:130 | Comments added one after another end up in the order they were sent, after the existing ones |
| `Posts.Without` | routes/postRoutes.js:145 | Removing an id keeps every other id, keeps them distinct and shortens the list by one |
| `Posts.InsertNewestFirst` | routes/postRoutes.js:69-70 | Inserting into a newest-first list keeps it newest-first and adds exactly that post |
| `Posts.SortNewestFirst` | routes/postRoutes.js:69-70 | The listing order is newest first and a permutation of its input |
| `Posts.PostStore.Create` | routes/postRoutes.js:30-62 | A falsy userId or caption gives 400 and changes nothing, not even the id counter; otherwise exactly one new post with a never-used id, the chosen image and the defaults is added, and 201 returns it |
| `Posts.PostStore.List` | routes/postRoutes.js:67-76 | Returns every stored post exactly once, newest first, and changes nothing |
| `Posts.PostStore.Like` | routes/postRoutes.js:85-117 | An unknown id gives 404 and no change; otherwise only that post is toggled, 200 returns it, and `likeCount == \|likes\|` is kept for every post |
| `Posts.PostStore.AddCommentTo` | routes/postRoutes.js:123-137 | An unknown id gives 404 and no change; otherwise only that post gets the comment appended |
| `Posts.PostStore.Delete` | routes/postRoutes.js:140-150 | An unknown id gives 404 and no change; otherwise only that post is removed; afterwards the id is unknown, so later like, comment or delete calls on it give 404 |
| `Posts.DeletedPostStaysGone` | routes/postRoutes.js:88-150 | After a post is deleted and another is created, like, comment and delete on the deleted id all answer 404, because ids are never reused |
| `AuthRoutes.IssueToken` | routes/authRoutes.js:35-38 | Sets the token to the given one and the expiry to now + 3600000, replacing any earlier pair, and touches no other field |
| `AuthRoutes.Consume` | routes/authRoutes.js:74-77 | Stores the given digest as the password and clears both token fields together; no other field changes |
| `AuthRoutes.IssuedTokenWindow` | routes/authRoutes.js:37-67 | An issued token is redeemable exactly while `now < issuedAt + 3600000`, so the check is strict |
| `AuthRoutes.ReissueRevokes` | routes/authRoutes.js:35-38 | A new forgot-password request makes the previous token unusable |
| `AuthRoutes.ConsumedNotRedeemable` | routes/authRoutes.js:74-78 | After a reset, the user holds no redeemable token at any time |
| `AuthRoutes.UserStore.ForgotPassword` | routes/authRoutes.js:25-56 | An unknown email gives 404 and no change; otherwise only that user gets a new token expiring at now + 3600000; distinct tokens stay distinct when the new token is fresh |
| `AuthRoutes.UserStore.ResetPassword` | routes/authRoutes.js:59-85 | Succeeds exactly when some user holds the token and its expiry is later than now; that user gets the new digest and both token fields are cleared; otherwise 400 and no change; with distinct tokens, a second reset with the same token fails |
| `AuthRoutes.UserStore.Register` | routes/authRoutes.js:94-129 | An existing email gives 400 and no change; otherwise one user is added whose stored password is the hash (a digest, never the plaintext), and the reply is 201 |
| `AuthRoutes.RegisterThenLogIn` | routes/authRoutes.js:104-146 | Under bcrypt's promise, a user who has just registered logs in with the same password |
| `AuthRoutes.ResetThenLogIn` | routes/authRoutes.js:64-146 | With distinct tokens and bcrypt's promise, a reset with a valid token succeeds, the new password then logs in, and a second reset with the same token answers 400 |
| `AuthRoutes.UserStore.Login` | routes/authRoutes.js:132-168 | Succeeds exactly when the email exists and the password matches; an unknown email and a wrong password get the same 400 message; success returns id, name, email, profilePicture, visibility and the token, never the password |

## Left out

- Server errors (status 500) are not modelled. The in-memory stores never fail, and thrown exceptions are not modelled.
- `Posts.PostStore.Like`: Mongoose map keys may not contain `.` or start with `$`. For such a `userId`, `post.likes.set` (routes/postRoutes.js:102) throws, so the source answers 500 and changes nothing. The model toggles the like anyway.
- Mail delivery is not modelled. In forgot-password the token is saved before `sendMail` runs. If sending fails, the source answers 500 with the new token already stored; the model answers 200.
- `populate("userId", "username email")` in the listing is not modelled. The model returns the stored author id.
- Mongoose persistence is not modelled: `markModified`, `save` and `deleteOne` become map updates.
- Schema validation is not modelled. `models/Post.js` and `models/User.js` are not part of this model. Their defaults (empty likes, count 0, no comments, creation time, no reset token) are assumptions.
- Concurrent requests are not modelled, so neither is the lost-update race of the read-modify-write in like and comment. Each request is atomic.
- Missing body fields are not modelled in like, comment, register, login, forgot-password and reset-password. There `userId`, `text`, `email`, `password` and `newPassword` are strings. Create's `userId`, `caption` and `imageUrl` may be absent.
- `AuthRoutes.UserStore.ResetPassword`: with `newPassword` missing, `bcrypt.hash` throws (routes/authRoutes.js:75). The source then answers 500 and leaves the token unconsumed. The model always has a password to hash.
- `Posts.PostStore.Like`, `Posts.PostStore.AddCommentTo`, `Posts.PostStore.Delete`: a path id that is not a valid ObjectId makes `Post.findById` throw a cast error (routes/postRoutes.js:88,126,142). The source then answers 500, not 404. Post ids are `nat`, so such an id cannot be written in the model.
- bcrypt, `crypto.randomBytes`, `Date.now()`, `jwt.sign` (including its 7-day expiry) and `jwt.verify` with its secret are parameters of the model.
- `jwt.verify` is modelled as returning the user id directly. A payload without an `id` field is not modelled.
- Listing order among posts created at the same instant is not promised. The database's sort is not stable by contract.
- `Upload.Decimal` does not model JavaScript's exponent notation for numbers of 10^21 and above, because millisecond timestamps stay far below that.
- Multer's disk writes are not modelled, nor is the creation of the upload directory. The post route's `./uploads` destination (routes/postRoutes.js:10-19) is not modelled; its file name rule at line 21 is the same `Upload.StoredFilename`.
- Files left behind when a post is deleted are not modelled.
- `server.js` (configuration, CORS, static serving, listening) is not modelled.
- `AuthRoutes.UserStore.ResetPassword`: when several users hold the same redeemable token, the database returns one of them. The model picks any one of them, and promises single use only when tokens are distinct among users.
