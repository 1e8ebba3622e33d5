/**
 * The message record and the conversion of a chat server's "posts for channel"
 * reply (an ordered list of post ids plus a dictionary of posts) into messages
 * (contextualizethat/message.py).
 */
module Messages {
  import opened Wrappers

  /** A chat message: its id, its author, its text and its creation time. */
  datatype Message = Message(msgId: string, user: string, text: string, time: real)

  /** `Message.__init__` stores its four arguments unchanged, under their own names. */
  lemma MessageKeepsFields(msgId: string, user: string, text: string, time: real)
    ensures Message(msgId, user, text, time).msgId == msgId
    ensures Message(msgId, user, text, time).user == user
    ensures Message(msgId, user, text, time).text == text
    ensures Message(msgId, user, text, time).time == time
  {
  }

  /**
   * One post of the server's reply, reduced to the three entries the conversion
   * reads; each entry may be absent from the post's dictionary.
   */
  datatype Post = Post(message: Option<string>, userId: Option<string>, createAt: Option<real>)

  /**
   * Why a conversion fails: an id of the order that has no post (the source's
   * `assert`), or a post that has a text but lacks an entry read next to it
   * (the source's KeyError).
   */
  datatype ApiError = MissingPost(id: string) | MissingField(id: string, field: string)

  /** The conversion of `id` fails: no post, or a text without author or time. */
  predicate Malformed(id: string, posts: map<string, Post>)
  {
    id !in posts ||
    (posts[id].message.Some? && (posts[id].userId.None? || posts[id].createAt.None?))
  }

  /** A well-formed post that yields a message: it has a 'message' entry. */
  predicate Yields(id: string, posts: map<string, Post>)
  {
    id in posts && posts[id].message.Some? && !Malformed(id, posts)
  }

  /** `m` is the message built from post `id`: its id, author, text and time. */
  predicate BuiltFrom(m: Message, id: string, posts: map<string, Post>)
  {
    Yields(id, posts) &&
    m == Message(id, posts[id].userId.value, posts[id].message.value, posts[id].createAt.value)
  }

  /**
   * The per-id step of the conversion: a missing post is an error, a post
   * without text yields nothing, otherwise the message is built, reading
   * 'user_id' before 'create_at'.
   */
  function TransformOrder(id: string, posts: map<string, Post>): (r: Result<Option<Message>, ApiError>)
    ensures r.Failure? <==> Malformed(id, posts)
    ensures r.Success? && r.value.Some? <==> Yields(id, posts)
    ensures r.Success? && r.value.Some? ==> BuiltFrom(r.value.value, id, posts)
  {
    if id !in posts then Failure(MissingPost(id))
    else
      var post := posts[id];
      if post.message.None? then Success(None)
      else if post.userId.None? then Failure(MissingField(id, "user_id"))
      else if post.createAt.None? then Failure(MissingField(id, "create_at"))
      else Success(Some(Message(id, post.userId.value, post.message.value, post.createAt.value)))
  }

  /**
   * The conversion of a whole reply: every id of `order` is converted in turn,
   * the first failure ends it, and the ids that yield nothing are dropped.
   */
  function MsgFromApi(order: seq<string>, posts: map<string, Post>): (r: Result<seq<Message>, ApiError>)
    ensures r.Success? <==> forall i :: 0 <= i < |order| ==> !Malformed(order[i], posts)
    ensures r.Success? ==> |r.value| <= |order|
    ensures r.Success? ==>
      forall j :: 0 <= j < |r.value| ==> r.value[j].msgId in order && BuiltFrom(r.value[j], r.value[j].msgId, posts)
  {
    if order == [] then Success([])
    else
      match TransformOrder(order[0], posts)
      case Failure(e) => Failure(e)
      case Success(first) =>
        match MsgFromApi(order[1..], posts)
        case Failure(e) => Failure(e)
        case Success(rest) => Success(if first.Some? then [first.value] + rest else rest)
  }

  /** `idx` lists positions of `order` in strictly increasing order. */
  ghost predicate Increasing(idx: seq<nat>, n: nat)
  {
    (forall j :: 0 <= j < |idx| ==> idx[j] < n) &&
    (forall j, k :: 0 <= j < k < |idx| ==> idx[j] < idx[k])
  }

  /**
   * `ms` is taken from the positions `idx` of `order`: strictly increasing
   * positions, each message built from its post, and a position taken exactly
   * when its post yields a message.
   */
  ghost predicate Selection(order: seq<string>, posts: map<string, Post>, ms: seq<Message>, idx: seq<nat>)
  {
    && |idx| == |ms|
    && Increasing(idx, |order|)
    && (forall j :: 0 <= j < |ms| ==> BuiltFrom(ms[j], order[idx[j]], posts))
    && (forall i :: 0 <= i < |order| ==> (i in idx <==> Yields(order[i], posts)))
  }

  /**
   * A successful conversion is an order-preserving selection: the messages come
   * from strictly increasing positions of `order`, and a position is selected
   * exactly when its post has a text.
   */
  lemma {:induction false} MsgFromApiSelects(order: seq<string>, posts: map<string, Post>)
      returns (idx: seq<nat>)
    requires MsgFromApi(order, posts).Success?
    ensures Selection(order, posts, MsgFromApi(order, posts).value, idx)
  {
    if order == [] {
      idx := [];
    } else {
      var tail := order[1..];
      var rest := MsgFromApiSelects(tail, posts);
      var ms := MsgFromApi(tail, posts).value;
      if Yields(order[0], posts) {
        var m := TransformOrder(order[0], posts).value.value;
        assert MsgFromApi(order, posts).value == [m] + ms;
        ShiftSelects(order, posts, ms, rest);
        SelectFirst(order, posts, m, ms, Shift(rest));
        idx := [0] + Shift(rest);
      } else {
        assert MsgFromApi(order, posts).value == ms;
        ShiftSelects(order, posts, ms, rest);
        SkipFirst(order, posts, ms, Shift(rest));
        idx := Shift(rest);
      }
    }
  }

  /** The positions `idx` select `ms` from `order` at every position from 1 on. */
  ghost predicate SelectionAfterFirst(order: seq<string>, posts: map<string, Post>, ms: seq<Message>, idx: seq<nat>)
  {
    && |idx| == |ms|
    && Increasing(idx, |order|)
    && 0 !in idx
    && (forall j :: 0 <= j < |ms| ==> BuiltFrom(ms[j], order[idx[j]], posts))
    && (forall i :: 1 <= i < |order| ==> (i in idx <==> Yields(order[i], posts)))
  }

  /** A selection from the tail of `order`, moved one place to the right. */
  lemma ShiftSelects(order: seq<string>, posts: map<string, Post>, ms: seq<Message>, rest: seq<nat>)
    requires |order| > 0 && Selection(order[1..], posts, ms, rest)
    ensures SelectionAfterFirst(order, posts, ms, Shift(rest))
  {
    var tail := order[1..];
    var shifted := Shift(rest);
    forall j | 0 <= j < |ms| ensures BuiltFrom(ms[j], order[shifted[j]], posts) {
      assert order[shifted[j]] == tail[rest[j]];
    }
    forall i | 1 <= i < |order| ensures i in shifted <==> Yields(order[i], posts) {
      assert order[i] == tail[i - 1];
      if i - 1 in rest {
        var j :| 0 <= j < |rest| && rest[j] == i - 1;
        assert shifted[j] == i;
      }
    }
  }

  /** Adding the first position, whose post yields `m`, completes the selection. */
  lemma SelectFirst(order: seq<string>, posts: map<string, Post>, m: Message, ms: seq<Message>, idx: seq<nat>)
    requires |order| > 0 && SelectionAfterFirst(order, posts, ms, idx) && BuiltFrom(m, order[0], posts)
    ensures Selection(order, posts, [m] + ms, [0] + idx)
  {
    var all, pos := [m] + ms, [0] + idx;
    forall j | 0 <= j < |all| ensures BuiltFrom(all[j], order[pos[j]], posts) {
      if j > 0 {
        assert all[j] == ms[j - 1] && pos[j] == idx[j - 1];
      }
    }
  }

  /** When the first post yields nothing, the positions from 1 on are the whole selection. */
  lemma SkipFirst(order: seq<string>, posts: map<string, Post>, ms: seq<Message>, idx: seq<nat>)
    requires |order| > 0 && SelectionAfterFirst(order, posts, ms, idx) && !Yields(order[0], posts)
    ensures Selection(order, posts, ms, idx)
  {
  }

  /** Every position moved one place to the right. */
  function Shift(idx: seq<nat>): (r: seq<nat>)
    ensures |r| == |idx|
    ensures forall j :: 0 <= j < |idx| ==> r[j] == idx[j] + 1
  {
    seq(|idx|, j requires 0 <= j < |idx| => idx[j] + 1)
  }

  /** A failed conversion reports the first malformed id of `order`. */
  lemma {:induction false} MsgFromApiFirstError(order: seq<string>, posts: map<string, Post>)
    requires MsgFromApi(order, posts).Failure?
    ensures exists i :: (0 <= i < |order| && Malformed(order[i], posts) &&
      (forall k :: 0 <= k < i ==> !Malformed(order[k], posts)) &&
      MsgFromApi(order, posts).error == TransformOrder(order[i], posts).error)
  {
    if Malformed(order[0], posts) {
      assert Malformed(order[0], posts) &&
        MsgFromApi(order, posts).error == TransformOrder(order[0], posts).error;
    } else {
      MsgFromApiFirstError(order[1..], posts);
      var i :| 0 <= i < |order[1..]| && Malformed(order[1..][i], posts) &&
        (forall k :: 0 <= k < i ==> !Malformed(order[1..][k], posts)) &&
        MsgFromApi(order[1..], posts).error == TransformOrder(order[1..][i], posts).error;
      assert Malformed(order[i + 1], posts) &&
        (forall k :: 0 <= k < i + 1 ==> !Malformed(order[k], posts)) &&
        MsgFromApi(order, posts).error == TransformOrder(order[i + 1], posts).error;
    }
  }
}
