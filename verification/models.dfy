/** The rows of the two tables, with the columns the core reads. Times are
    whole seconds on one clock. */
module Models {

  datatype User = User(id: int, email: string, hashedPassword: string, createdAt: int)

  /** A row of `posts`; the same fields make up a `PostResponse` and the
      dictionaries stored in the post cache. */
  datatype Post = Post(id: int, text: string, userId: int, createdAt: int, updatedAt: int)
}
