/**
 TorrentVideoReader: one file of a torrent read through its pieces, with a cache
 of four pieces and a budget of bytes that may be requested.
 */
module TorrentReader {
  import opened Basics
  import opened Bytes
  import opened LruCache

  datatype Error = ValueError | TimeoutError | RuntimeError

  datatype Whence = Set | Current | End | Other

  const CALLBACK_LIMIT := 32768

  // ------------------------------------------------------------ the plain file

  /** What `read(size)` returns on an in-memory file, capped like the reader's callback. */
  function PlainRead(file: seq<Byte>, position: nat, size: int): (r: seq<Byte>) {
    if position >= |file| then []
    else
      var wanted := Min(Min(if size < 0 then CALLBACK_LIMIT else size, CALLBACK_LIMIT), |file| - position);
      file[position..position + wanted]
  }

  /** Where `seek` leaves an in-memory file; refused when before its start. */
  function PlainSeek(file: seq<Byte>, position: nat, offset: int, whence: Whence): Result<nat, Error> {
    if whence.Other? then Err(ValueError)
    else
      var base := match whence case Set => 0 case Current => position case _ => |file|;
      if base + offset < 0 then Err(ValueError) else Ok(base + offset)
  }

  /** A read gives the bytes from the position on, as many as wanted, all up to the cap
      for a negative size, or as many as there are. */
  lemma PlainReadIs(file: seq<Byte>, position: nat, size: int)
    ensures var r := PlainRead(file, position, size);
      && |r| == Min(if 0 <= size <= 32768 then size else 32768, Max(0, |file| - position))
      && forall k :: 0 <= k < |r| ==> r[k] == file[position + k]
  {
  }

  /** A seek counts from the start, from the position or from the end, and is refused
      before the start. */
  lemma PlainSeekIs(file: seq<Byte>, position: nat, offset: int)
    ensures PlainSeek(file, position, offset, Set) == if offset < 0 then Err(ValueError) else Ok(offset)
    ensures PlainSeek(file, position, offset, Current)
         == if position + offset < 0 then Err(ValueError) else Ok(position + offset)
    ensures PlainSeek(file, position, offset, End)
         == if |file| + offset < 0 then Err(ValueError) else Ok(|file| + offset)
    ensures PlainSeek(file, position, offset, Other) == Err(ValueError)
  {
  }

  // --------------------------------------------------------------- the torrent

  /** The bytes of all files of a torrent, one after the other, cut into pieces. */
  datatype Torrent = Torrent(content: seq<Byte>, pieceLength: nat)

  /** Where a piece begins: behind all pieces before it. */
  function Start(t: Torrent, piece: nat): nat {
    if piece == 0 then 0 else Start(t, piece - 1) + t.pieceLength
  }

  lemma {:induction false} StartIsProduct(t: Torrent, piece: nat)
    ensures Start(t, piece) == piece * t.pieceLength
  {
    if piece == 0 {
    } else {
      StartIsProduct(t, piece - 1);
    }
  }

  predicate IsPiece(t: Torrent, piece: nat) {
    t.pieceLength > 0 && Start(t, piece) < |t.content|
  }

  /** Verified piece data; the last piece may be short. */
  function Piece(t: Torrent, piece: nat): (r: seq<Byte>)
    requires IsPiece(t, piece)
    ensures 1 <= |r| <= t.pieceLength
  {
    var start := Start(t, piece);
    t.content[start..Min(start + t.pieceLength, |t.content|)]
  }

  /** `divmod(absolute, piece_length)` finds a byte's piece and its position there. */
  lemma PieceOfByte(t: Torrent, absolute: nat)
    requires t.pieceLength > 0 && absolute < |t.content|
    ensures IsPiece(t, absolute / t.pieceLength)
    ensures absolute % t.pieceLength < |Piece(t, absolute / t.pieceLength)|
    ensures Start(t, absolute / t.pieceLength) + absolute % t.pieceLength == absolute
  {
    StartIsProduct(t, absolute / t.pieceLength);
  }

  /** A slice of a piece is the slice of the file it stands for. */
  lemma PieceSlice(t: Torrent, offset: nat, size: nat, position: nat, piece: nat, within: nat, n: nat)
    requires IsPiece(t, piece) && within + n <= |Piece(t, piece)|
    requires Start(t, piece) + within == offset + position
    requires offset + size <= |t.content| && position + n <= size
    ensures Piece(t, piece)[within..within + n] == t.content[offset..offset + size][position..position + n]
  {
    var file, absolute := t.content[offset..offset + size], offset + position;
    var data := Piece(t, piece);
    assert forall k :: within <= k < within + n ==> data[k] == t.content[absolute + (k - within)];
    assert forall k :: position <= k < position + n ==> file[k] == t.content[absolute + (k - position)];
  }

  /** The sizes of the pieces in `s` below `n`, added up. */
  function Budget(t: Torrent, s: set<nat>, n: nat): (r: nat) {
    if n == 0 then 0
    else Budget(t, s, n - 1) + if n - 1 in s && IsPiece(t, n - 1) then |Piece(t, n - 1)| else 0
  }

  lemma {:induction false} BudgetAdd(t: Torrent, s: set<nat>, n: nat, piece: nat)
    requires piece !in s && IsPiece(t, piece)
    ensures Budget(t, s + {piece}, n) == Budget(t, s, n) + if piece < n then |Piece(t, piece)| else 0
  {
    if n == 0 {
    } else {
      BudgetAdd(t, s, n - 1, piece);
    }
  }

  lemma PieceBelowLength(t: Torrent, piece: nat)
    requires IsPiece(t, piece)
    ensures piece < |t.content|
  {
    StartIsProduct(t, piece);
    assert piece <= piece * t.pieceLength;
  }

  /** How waiting for a piece can end.  Data of the right length is the piece:
      libtorrent checks every piece against its hash before it is read. */
  datatype Reply = Expired | Failed | Data(bytes: seq<Byte>)

  method ReadPiece(t: Torrent, piece: nat) returns (reply: Reply)
    requires IsPiece(t, piece)
    ensures reply.Data? && |reply.bytes| == |Piece(t, piece)| ==> reply.bytes == Piece(t, piece)
  {
    var outcome: int := *;
    if outcome == 0 {
      reply := Expired;
    } else if outcome == 1 {
      reply := Failed;
    } else if outcome == 2 {
      reply := Data(Piece(t, piece)[1..]);
    } else {
      reply := Data(Piece(t, piece));
    }
  }

  // ---------------------------------------------------------------- the reader

  class Reader {
    const torrent: Torrent
    const offset: nat
    const size: nat
    const maxBytes: int
    var position: nat
    var requested: set<nat>
    var requestedBytes: int
    var order: seq<nat>              // keys of the OrderedDict, oldest first
    var cached: map<nat, seq<Byte>>  // its values
    ghost var uses: seq<nat>         // every piece handed out, in order

    ghost predicate Valid()
      reads this`requested, this`requestedBytes, this`order, this`cached, this`uses
    {
      && torrent.pieceLength > 0 && offset + size <= |torrent.content|
      && (forall p :: p in requested ==> IsPiece(torrent, p))
      && requestedBytes == Budget(torrent, requested, |torrent.content|)
      && (requested == {} || requestedBytes <= maxBytes)
      && order == Replayed(uses)
      && (forall p :: p in cached <==> p in order)
      && (forall p :: p in cached ==> p in requested)
      && (forall p :: p in cached ==> IsPiece(torrent, p) && cached[p] == Piece(torrent, p))
    }

    ghost function File(): (r: seq<Byte>)
      reads this`requested, this`requestedBytes, this`order, this`cached, this`uses
      requires Valid()
      ensures |r| == size
    {
      torrent.content[offset..offset + size]
    }

    constructor (torrent: Torrent, offset: nat, size: nat, maxBytes: int)
      requires torrent.pieceLength > 0 && offset + size <= |torrent.content|
      ensures Valid() && position == 0 && requested == {} && uses == []
      ensures this.torrent == torrent && this.offset == offset && this.size == size && this.maxBytes == maxBytes
    {
      this.torrent, this.offset, this.size, this.maxBytes := torrent, offset, size, maxBytes;
      position, requested, requestedBytes := 0, {}, 0;
      order, cached, uses := [], map[], [];
      new;
      EmptyBudget(torrent, |torrent.content|);
    }

    method Seek(offset: int, whence: Whence) returns (r: Result<nat, Error>)
      requires Valid()
      modifies this`position
      ensures Valid()
      ensures r == PlainSeek(File(), old(position), offset, whence)
      ensures position == if r.Ok? then r.value else old(position)
    {
      if whence.Other? { return Err(ValueError); }
      var base := match whence case Set => 0 case Current => position case _ => size;
      if base + offset < 0 { return Err(ValueError); }
      position := base + offset;
      return Ok(position);
    }

    /** Asks for a piece; the first time, its size is charged to the budget. */
    method Request(piece: nat) returns (granted: bool)
      requires Valid() && IsPiece(torrent, piece)
      modifies this`requested, this`requestedBytes
      ensures Valid()
      ensures granted <==> piece in old(requested) || old(requestedBytes) + |Piece(torrent, piece)| <= maxBytes
      ensures requested == if granted then old(requested) + {piece} else old(requested)
      ensures requestedBytes ==
        old(requestedBytes) + if granted && piece !in old(requested) then |Piece(torrent, piece)| else 0
    {
      if piece in requested {
        assert requested + {piece} == requested;
        return true;
      }
      var size := |Piece(torrent, piece)|;
      if requestedBytes + size > maxBytes { return false; }
      BudgetAdd(torrent, requested, |torrent.content|, piece);
      PieceBelowLength(torrent, piece);
      requested, requestedBytes := requested + {piece}, requestedBytes + size;
      granted := true;
    }

    /** Puts a piece just read at the end of the cache and evicts beyond four. */
    method Store(piece: nat, bytes: seq<Byte>)
      requires Valid() && IsPiece(torrent, piece) && piece in requested && bytes == Piece(torrent, piece)
      modifies this`order, this`cached, this`uses
      ensures Valid() && uses == old(uses) + [piece]
    {
      ReplayedMore(uses, piece);
      var all := cached[piece := bytes];
      order, uses := Touched(order, piece), uses + [piece];
      cached := map p | p in all && p in order :: all[p];
    }

    /** `move_to_end` on a cached piece. */
    method Hit(piece: nat) returns (bytes: seq<Byte>)
      requires Valid() && piece in cached
      modifies this`order, this`uses
      ensures Valid() && uses == old(uses) + [piece] && bytes == Piece(torrent, piece) && piece in requested
    {
      ReplayedMore(uses, piece);
      bytes := cached[piece];
      order, uses := Touched(order, piece), uses + [piece];
    }

    /** _piece: from the cache, or from the torrent within the budget. */
    method GetPiece(piece: nat) returns (r: Result<seq<Byte>, Error>)
      requires Valid() && IsPiece(torrent, piece)
      modifies this`requested, this`requestedBytes, this`order, this`cached, this`uses
      ensures Valid()
      ensures r.Ok? ==> r.value == Piece(torrent, piece) && uses == old(uses) + [piece] && piece in requested
      ensures r.Err? ==> r.error != ValueError && uses == old(uses) && order == old(order) && cached == old(cached)
      ensures requested == old(requested) || requested == old(requested) + {piece}
      ensures piece in old(requested) ==> requested == old(requested) && requestedBytes == old(requestedBytes)
      ensures piece in old(cached) && r.Err? ==> r.error == TimeoutError
      ensures piece !in old(requested) && old(requestedBytes) + |Piece(torrent, piece)| > maxBytes ==>
        r.Err? && requested == old(requested) && requestedBytes == old(requestedBytes)
    {
      hide Valid;
      var expired: bool := *;
      if expired { return Err(TimeoutError); }
      if piece in cached {
        var bytes := Hit(piece);
        return Ok(bytes);
      }
      var granted := Request(piece);
      if !granted { return Err(RuntimeError); }
      var reply := ReadPiece(torrent, piece);
      match reply
      case Expired => return Err(TimeoutError);
      case Failed => return Err(RuntimeError);
      case Data(bytes) =>
        if |bytes| != |Piece(torrent, piece)| { return Err(RuntimeError); }
        Store(piece, bytes);
        return Ok(bytes);
    }

    method Locate() returns (piece: nat, within: nat)
      requires Valid() && position < size
      ensures IsPiece(torrent, piece) && within < |Piece(torrent, piece)|
      ensures Start(torrent, piece) + within == offset + position && offset + size <= |torrent.content|
    {
      var absolute := offset + position;
      PieceOfByte(torrent, absolute);
      piece, within := absolute / torrent.pieceLength, absolute % torrent.pieceLength;
    }

    /** The data for one turn of the loop of `read`: bytes up to the end of the current piece. */
    method NextBytes(limit: nat) returns (r: Result<seq<Byte>, Error>)
      requires Valid() && 0 < limit && position + limit <= size
      modifies this`requested, this`requestedBytes, this`order, this`cached, this`uses
      ensures Valid() && old(requested) <= requested && old(uses) <= uses
      ensures r.Ok? ==> 1 <= |r.value| <= limit && r.value == File()[position..position + |r.value|]
    {
      hide Valid;
      var piece, within := Locate();
      r := GetPiece(piece);
      if r.Ok? {
        var length := Min(limit, |r.value| - within);
        PieceSlice(torrent, offset, size, position, piece, within, length);
        r := Ok(r.value[within..within + length]);
      }
    }

    /** The loop of `read`. */
    method ReadFully(wanted: nat) returns (r: Result<seq<Byte>, Error>)
      requires Valid() && position + wanted <= size
      modifies this
      ensures Valid() && old(requested) <= requested && old(uses) <= uses
      ensures old(position) <= position <= old(position) + wanted
      ensures r.Ok? ==> r.value == File()[old(position)..position] && position == old(position) + wanted
    {
      hide Valid;
      var result: seq<Byte> := [];
      ghost var start, file := position, File();
      while |result| < wanted
        invariant Valid() && old(requested) <= requested && old(uses) <= uses
        invariant start <= position <= start + wanted <= size
        invariant result == file[start..position]
      {
        var step := NextBytes(wanted - |result|);
        if step.Err? { return step; }
        result := result + step.value;
        position := position + |step.value|;
      }
      return Ok(result);
    }

    /** read: the bytes a plain file would give, or an exception that leaves the
        position somewhere between the old one and the end of what was wanted. */
    method Read(size: int) returns (r: Result<seq<Byte>, Error>)
      requires Valid()
      modifies this
      ensures Valid() && old(requested) <= requested && old(uses) <= uses
      ensures r.Ok? ==> r.value == PlainRead(File(), old(position), size) && position == old(position) + |r.value|
      ensures r.Err? ==> old(position) <= position <= old(position) + |PlainRead(File(), old(position), size)|
    {
      var expired: bool := *;
      if expired { return Err(TimeoutError); }
      if position >= this.size { return Ok([]); }
      var wanted := Min(Min(if size < 0 then CALLBACK_LIMIT else size, CALLBACK_LIMIT), this.size - position);
      r := ReadFully(wanted);
    }
  }

  lemma {:induction false} EmptyBudget(t: Torrent, n: nat)
    ensures Budget(t, {}, n) == 0
  {
    if n == 0 {
    } else {
      EmptyBudget(t, n - 1);
    }
  }

  // -------------------------------------------------------------- whole sessions

  datatype Operation = DoSeek(offset: int, whence: Whence) | DoRead(size: int)

  datatype Answer = Sought(r: Result<nat, Error>) | Bytes(bytes: seq<Byte>)

  /** What an in-memory file answers to one call, and its position afterwards. */
  function PlainStep(file: seq<Byte>, position: nat, op: Operation): (Answer, nat) {
    match op
    case DoSeek(offset, whence) =>
      var r := PlainSeek(file, position, offset, whence);
      (Sought(r), if r.Ok? then r.value else position)
    case DoRead(size) =>
      var bytes := PlainRead(file, position, size);
      (Bytes(bytes), position + |bytes|)
  }

  function PlainPosition(file: seq<Byte>, start: nat, ops: seq<Operation>): nat {
    if ops == [] then start
    else PlainStep(file, PlainPosition(file, start, ops[..|ops| - 1]), ops[|ops| - 1]).1
  }

  function PlainAnswers(file: seq<Byte>, start: nat, ops: seq<Operation>): (r: seq<Answer>)
    ensures |r| == |ops|
  {
    if ops == [] then []
    else
      var front := ops[..|ops| - 1];
      PlainAnswers(file, start, front) + [PlainStep(file, PlainPosition(file, start, front), ops[|ops| - 1]).0]
  }

  /** What reads have given, one behind the other. */
  function AllBytes(answers: seq<Answer>): seq<Byte> {
    if answers == [] then []
    else
      var last := answers[|answers| - 1];
      AllBytes(answers[..|answers| - 1]) + if last.Bytes? then last.bytes else []
  }

  lemma OneRead(file: seq<Byte>, start: nat, p: nat, size: int)
    requires start <= p <= |file|
    ensures var r := PlainRead(file, p, size);
      && p + |r| <= |file| && file[start..p] + r == file[start..p + |r|]
      && (size != 0 ==> p + |r| >= Min(|file|, p + 1))
  {
  }

  lemma LastAnswer(file: seq<Byte>, start: nat, ops: seq<Operation>)
    requires ops != [] && ops[|ops| - 1].DoRead?
    ensures var front, p := ops[..|ops| - 1], PlainPosition(file, start, ops[..|ops| - 1]);
      var r := PlainRead(file, p, ops[|ops| - 1].size);
      && AllBytes(PlainAnswers(file, start, ops)) == AllBytes(PlainAnswers(file, start, front)) + r
      && PlainPosition(file, start, ops) == p + |r|
  {
    var front := ops[..|ops| - 1];
    assert PlainAnswers(file, start, ops)[..|ops| - 1] == PlainAnswers(file, start, front);
    hide PlainRead;
  }

  predicate AllReads(ops: seq<Operation>) {
    forall i :: 0 <= i < |ops| ==> ops[i].DoRead?
  }

  predicate SomeWanted(ops: seq<Operation>) {
    forall i :: 0 <= i < |ops| ==> ops[i].DoRead? && ops[i].size != 0
  }

  /** Reads one after the other give the file from the start position on without a gap. */
  lemma {:induction false} ReadsGiveFile(file: seq<Byte>, start: nat, ops: seq<Operation>)
    requires start <= |file| && AllReads(ops)
    ensures start <= PlainPosition(file, start, ops) <= |file|
    ensures AllBytes(PlainAnswers(file, start, ops)) == file[start..PlainPosition(file, start, ops)]
  {
    if ops == [] {
      assert PlainAnswers(file, start, ops) == [] && PlainPosition(file, start, ops) == start;
    } else {
      var front, last := ops[..|ops| - 1], ops[|ops| - 1];
      assert AllReads(front) && last.DoRead?;
      hide *;
      ReadsGiveFile(file, start, front);
      LastAnswer(file, start, ops);
      OneRead(file, start, PlainPosition(file, start, front), last.size);
    }
  }

  /** They give all of it once there are as many of them, none of size 0, as bytes to read. */
  lemma {:induction false} ReadsReachEnd(file: seq<Byte>, start: nat, ops: seq<Operation>)
    requires start <= |file| && AllReads(ops) && SomeWanted(ops)
    ensures PlainPosition(file, start, ops) >= Min(|file|, start + |ops|)
    ensures start + |ops| >= |file| ==> AllBytes(PlainAnswers(file, start, ops)) == file[start..]
  {
    ReadsGiveFile(file, start, ops);
    if ops == [] {
      assert PlainPosition(file, start, ops) == start;
    } else {
      var front, last := ops[..|ops| - 1], ops[|ops| - 1];
      assert AllReads(front) && SomeWanted(front) && last.DoRead? && last.size != 0;
      hide PlainRead, PlainAnswers, AllBytes, PlainPosition, AllReads, SomeWanted;
      ReadsGiveFile(file, start, front);
      ReadsReachEnd(file, start, front);
      LastAnswer(file, start, ops);
      OneRead(file, start, PlainPosition(file, start, front), last.size);
    }
  }

  /** One call on the reader: answered like the plain file, unless a read fails. */
  method Perform(reader: Reader, op: Operation) returns (failed: bool, answer: Answer)
    requires reader.Valid()
    modifies reader
    ensures reader.Valid() && (failed ==> op.DoRead?)
    ensures !failed ==> (answer, reader.position) == PlainStep(reader.File(), old(reader.position), op)
  {
    hide Reader.Valid, PlainRead, PlainSeek, Min;
    match op
    case DoSeek(offset, whence) =>
      var r := reader.Seek(offset, whence);
      failed, answer := false, Sought(r);
    case DoRead(size) =>
      var r := reader.Read(size);
      failed, answer := r.Err?, Bytes(if r.Ok? then r.value else []);
  }

  /** Any sequence of seeks and reads, up to the first failing read, is answered
      exactly as the plain file answers it, and the budget is never overrun. */
  method Drive(reader: Reader, ops: seq<Operation>) returns (answers: seq<Answer>)
    requires reader.Valid()
    modifies reader
    ensures reader.Valid() && |answers| <= |ops|
    ensures answers == PlainAnswers(reader.File(), old(reader.position), ops[..|answers|])
    ensures |answers| == |ops| ==> reader.position == PlainPosition(reader.File(), old(reader.position), ops)
    ensures reader.requested == {} || reader.requestedBytes <= reader.maxBytes
    ensures |reader.order| <= 4 && reader.cached.Keys == set p | p in reader.order
  {
    answers := [];
    ghost var file, start := reader.File(), reader.position;
    for i := 0 to |ops|
      invariant reader.Valid() && |answers| == i
      invariant answers == PlainAnswers(file, start, ops[..i])
      invariant reader.position == PlainPosition(file, start, ops[..i])
    {
      assert ops[..i + 1][..i] == ops[..i];
      var failed, answer := Perform(reader, ops[i]);
      if failed { return answers; }
      answers := answers + [answer];
    }
    assert ops[..|ops|] == ops;
  }
}
