/** `CommentsService`: free-text comments on a client, written only for a
    client that exists, and read per client, newest first. */
module Comments {
  import opened Common
  import opened Seqs
  import opened Clients

  datatype Comment = Comment(content: string, clientId: ClientId, authorId: UserId, createdAt: int)

  const CommentClientNotFound: Error := NotFound("Клиент не найден")

  function CommentTime(c: Comment): int
  {
    c.createdAt
  }

  class CommentsService {
    const store: ClientsService
    var comments: seq<Comment>

    constructor (store: ClientsService)
      ensures this.store == store && comments == []
    {
      this.store := store;
      comments := [];
    }

    /** `create`: NotFound when the client does not exist, and nothing is
        written; otherwise exactly one comment with the given content,
        client and author is appended. */
    method Create(clientId: ClientId, authorId: UserId, content: string, now: int) returns (r: Result<Comment>)
      modifies this
      ensures r.Err? <==> clientId >= |store.clients|
      ensures r.Err? ==> r.error == CommentClientNotFound && comments == old(comments)
      ensures r.Ok? ==>
        && r.value == Comment(content, clientId, authorId, now)
        && comments == old(comments) + [r.value]
    {
      if clientId >= |store.clients| {
        return Err(CommentClientNotFound);
      }
      var c := Comment(content, clientId, authorId, now);
      comments := comments + [c];
      r := Ok(c);
    }
  }

  /** `findByClient`: exactly the comments on `clientId`, each as often as
      stored, newest first. */
  function CommentsOf(comments: seq<Comment>, clientId: ClientId): (r: seq<Comment>)
    ensures forall c :: multiset(r)[c] == if c.clientId == clientId then multiset(comments)[c] else 0
    ensures forall c :: c in r ==> c.clientId == clientId
    ensures SortedDesc(r, CommentTime)
  {
    SortDesc(Filter(comments, (c: Comment) => c.clientId == clientId), CommentTime)
  }
}
