/** What a route handler answers: a status code and a body. JSON
    serialisation is not modelled; a body is the value that is serialised. */
module Http {
  import opened Models

  const OK: int := 200
  const Created: int := 201
  const BadRequest: int := 400
  const NotFound: int := 404
  const Conflict: int := 409
  const InternalServerError: int := 500

  datatype Body =
    /** `mapOf("error" to message)` with a message known in full. */
    | ErrorBody(error: string)
    /** `mapOf("error" to prefix + e.message)`: the exception's own message
        is not modelled, only the prefix before it. */
    | FailureBody(prefix: string)
    /** An exception no handler catches: the server's default 500 page. */
    | Unhandled
    | CreatedPostBody(createdPost: CreatePostResponse)
    | PostBody(post: Post)
    /** `mapOf("post" to updatedPost)`. */
    | UpdatedPostBody(updatedPost: Post)
    | PostListBody(postList: PostListResponse)
    /** `mapOf("message" to message, "id" to id)`. */
    | DeletedBody(message: string, id: string)
    | CreatedUserBody(createdUser: CreateUserResponse)
    | UserListBody(userList: UserListResponse)
    | UserBody(user: User)

  datatype Response = Response(status: int, body: Body)
}
