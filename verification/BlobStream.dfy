/** Reading the output of `git cat-file --batch`: one header line, the content and a newline for
    every blob asked for. */
module BlobStream {
  import opened Wrappers

  type Byte = b: int | 0 <= b < 256
  type Bytes = seq<Byte>

  /** A blob asked for: its id and the size it must have. */
  datatype Request = Request(id: Bytes, size: nat)

  datatype Blob = Blob(id: Bytes, content: Bytes)

  datatype Error = StreamInvalid | SizeMismatch | HeaderUndecodable | SizeUnreadable

  datatype Result = Ok(blobs: seq<Blob>) | Err(error: Error)

  const NEWLINE: Byte := 10
  const BLOB: Bytes := [98, 108, 111, 98]

  /** The whitespace that separates words of a decoded header. */
  predicate IsSpace(b: Byte) { 9 <= b <= 13 || 28 <= b <= 32 }

  predicate IsDigit(b: Byte) { 48 <= b <= 57 }

  function WordEnd(s: Bytes): (n: nat)
    ensures n <= |s| && (forall i | 0 <= i < n :: !IsSpace(s[i])) && (n < |s| ==> IsSpace(s[n]))
  {
    if s == [] || IsSpace(s[0]) then 0 else 1 + WordEnd(s[1..])
  }

  function Words(s: Bytes): seq<Bytes>
    decreases |s|
  {
    if s == [] then []
    else if IsSpace(s[0]) then Words(s[1..])
    else [s[..WordEnd(s)]] + Words(s[WordEnd(s)..])
  }

  /** Digits, single underscores allowed between them. */
  function Magnitude(s: Bytes): Option<nat>
    decreases |s|
  {
    if s == [] || !IsDigit(s[|s| - 1]) then None
    else
      var d: nat := s[|s| - 1] - 48;
      if |s| == 1 then Some(d)
      else
        match Magnitude(if s[|s| - 2] == 95 then s[..|s| - 2] else s[..|s| - 1])
        case None => None
        case Some(n) => Some(10 * n + d)
  }

  /** The integer a word denotes; a sign is allowed. */
  function Int(s: Bytes): Option<int> {
    if s != [] && (s[0] == 43 || s[0] == 45) then
      match Magnitude(s[1..])
      case None => None
      case Some(n) =>
        var sign: int := if s[0] == 43 then 1 else -1;
        Some(sign * n)
    else
      match Magnitude(s)
      case None => None
      case Some(n) => Some(n)
  }

  /** The first newline at or after the offset, or the length. */
  function Find(s: Bytes, offset: nat): (n: nat)
    requires offset <= |s|
    ensures offset <= n <= |s| && (forall i | offset <= i < n :: s[i] != NEWLINE) && (n < |s| ==> s[n] == NEWLINE)
    decreases |s| - offset
  {
    if offset == |s| || s[offset] == NEWLINE then offset else Find(s, offset + 1)
  }

  predicate Ascii(s: Bytes) { forall b | b in s :: b < 128 }

  /** What is wrong with a header line, if anything. */
  function Fault(header: Bytes, r: Request): Option<Error> {
    if !Ascii(header) then Some(HeaderUndecodable)
    else if |Words(header)| != 3 || Words(header)[0] != r.id || Words(header)[1] != BLOB then Some(StreamInvalid)
    else
      match Int(Words(header)[2])
      case None => Some(SizeUnreadable)
      case Some(n) => if n != r.size then Some(SizeMismatch) else None
  }

  /** One blob at the front of the stream: its content, or what is wrong. */
  datatype Front = Read(content: Bytes, rest: Bytes) | Bad(error: Error)

  function TakeOne(s: Bytes, r: Request): Front {
    var n := Find(s, 0);
    if n == |s| then Bad(StreamInvalid)
    else
      match Fault(s[..n], r)
      case Some(e) => Bad(e)
      case None =>
        var end := n + 1 + r.size;
        if end >= |s| || s[end] != NEWLINE then Bad(StreamInvalid)
        else Read(s[n + 1..end], s[end + 1..])
  }

  function TakeAll(s: Bytes, rs: seq<Request>): Result {
    if rs == [] then if s == [] then Ok([]) else Err(StreamInvalid)
    else
      match TakeOne(s, rs[0])
      case Bad(e) => Err(e)
      case Read(content, rest) =>
        match TakeAll(rest, rs[1..])
        case Err(e) => Err(e)
        case Ok(blobs) => Ok([Blob(rs[0].id, content)] + blobs)
  }

  lemma {:induction false} FindIs(s: Bytes, offset: nat, n: nat)
    requires offset <= n <= |s| && (forall i | offset <= i < n :: s[i] != NEWLINE) && (n < |s| ==> s[n] == NEWLINE)
    ensures Find(s, offset) == n
    decreases n - offset
  {
    if offset < n {
      FindIs(s, offset + 1, n);
    }
  }

  lemma FindFrom(s: Bytes, offset: nat)
    requires offset <= |s|
    ensures Find(s, offset) == offset + Find(s[offset..], 0)
  {
    FindIs(s[offset..], 0, Find(s, offset) - offset);
  }

  /** The same for one blob at an offset into the payload. */
  lemma TakeOneAt(payload: Bytes, offset: nat, r: Request)
    requires offset <= |payload|
    ensures var n := Find(payload, offset);
      TakeOne(payload[offset..], r) ==
        if n == |payload| then Bad(StreamInvalid)
        else if Fault(payload[offset..n], r).Some? then Bad(Fault(payload[offset..n], r).value)
        else
          var end := n + 1 + r.size;
          if end >= |payload| || payload[end] != NEWLINE then Bad(StreamInvalid)
          else Read(payload[n + 1..end], payload[end + 1..])
  {
    hide Fault, Find;
    FindFrom(payload, offset);
    var s := payload[offset..];
    var n := Find(payload, offset);
    assert s[..n - offset] == payload[offset..n];
    var end := n + 1 + r.size;
    if end < |payload| {
      assert s[n - offset + 1..end - offset] == payload[n + 1..end];
      assert s[end - offset + 1..] == payload[end + 1..];
    }
  }

  /** Nothing is read when nothing is asked for; otherwise the whole stream must be used up. */
  method ReadBlobs(payload: Bytes, requests: seq<Request>) returns (r: Result)
    ensures r == if requests == [] then Ok([]) else TakeAll(payload, requests)
  {
    hide TakeOne, Fault, Find;
    if requests == [] {
      return Ok([]);
    }
    var offset := 0;
    var blobs: seq<Blob> := [];
    var i := 0;
    while i < |requests|
      invariant i <= |requests| && offset <= |payload|
      invariant TakeAll(payload, requests) ==
        match TakeAll(payload[offset..], requests[i..]) case Err(e) => Err(e) case Ok(more) => Ok(blobs + more)
    {
      var q := requests[i];
      assert requests[i..][0] == q && requests[i..][1..] == requests[i + 1..];
      TakeOneAt(payload, offset, q);
      var headerEnd := Find(payload, offset);
      if headerEnd == |payload| {
        return Err(StreamInvalid);
      }
      var fault := Fault(payload[offset..headerEnd], q);
      if fault.Some? {
        return Err(fault.value);
      }
      var start := headerEnd + 1;
      var end := start + q.size;
      if end >= |payload| || payload[end] != NEWLINE {
        return Err(StreamInvalid);
      }
      AppendAssociates(blobs, Blob(q.id, payload[start..end]));
      blobs := blobs + [Blob(q.id, payload[start..end])];
      offset := end + 1;
      i := i + 1;
    }
    assert requests[i..] == [];
    assert payload[offset..] == [] <==> offset == |payload|;
    if offset != |payload| {
      return Err(StreamInvalid);
    }
    assert blobs + [] == blobs;
    return Ok(blobs);
  }

  lemma AppendAssociates(blobs: seq<Blob>, b: Blob)
    ensures forall more: seq<Blob> :: blobs + ([b] + more) == blobs + [b] + more
  {
  }

  /** A header line that names the request. */
  predicate HeaderFor(header: Bytes, r: Request) {
    NEWLINE !in header && Fault(header, r).None?
  }

  /** The stream made of the headers and contents. */
  function Framed(headers: seq<Bytes>, blobs: seq<Blob>): Bytes
    requires |headers| == |blobs|
  {
    if blobs == [] then []
    else headers[0] + [NEWLINE] + blobs[0].content + [NEWLINE] + Framed(headers[1..], blobs[1..])
  }

  ghost predicate Fits(rs: seq<Request>, headers: seq<Bytes>, blobs: seq<Blob>) {
    && |headers| == |blobs| == |rs|
    && forall i | 0 <= i < |rs| ::
      HeaderFor(headers[i], rs[i]) && blobs[i].id == rs[i].id && |blobs[i].content| == rs[i].size
  }

  /** Whatever the contents are -- newlines, text that looks like a header -- a framed stream reads
      back as exactly its blobs. */
  lemma {:induction false} FramedReadsBack(rs: seq<Request>, headers: seq<Bytes>, blobs: seq<Blob>)
    requires Fits(rs, headers, blobs)
    ensures TakeAll(Framed(headers, blobs), rs) == Ok(blobs)
    decreases |rs|
  {
    hide TakeOne, HeaderFor;
    if rs != [] {
      var rest := Framed(headers[1..], blobs[1..]);
      FrontReadsBack(headers[0], blobs[0].content, rest, rs[0]);
      FramedReadsBack(rs[1..], headers[1..], blobs[1..]);
      assert blobs == [Blob(rs[0].id, blobs[0].content)] + blobs[1..];
    }
  }

  lemma FrontReadsBack(header: Bytes, content: Bytes, rest: Bytes, r: Request)
    requires HeaderFor(header, r) && |content| == r.size
    ensures TakeOne(header + [NEWLINE] + content + [NEWLINE] + rest, r) == Read(content, rest)
  {
    hide Fault;
    var s := header + [NEWLINE] + content + [NEWLINE] + rest;
    var n := Find(s, 0);
    assert s[|header|] == NEWLINE;
    FindIs(s, 0, |header|);
    assert s[..n] == header;
    var end := n + 1 + r.size;
    assert s[end] == NEWLINE;
    assert s[n + 1..end] == content;
    assert s[end + 1..] == rest;
  }

  /** And nothing else reads: a successful read is of a framed stream for the requests, so the blobs
      returned account for every byte of it. */
  lemma {:induction false} ReadIsFramed(s: Bytes, rs: seq<Request>) returns (headers: seq<Bytes>)
    requires TakeAll(s, rs).Ok?
    ensures Fits(rs, headers, TakeAll(s, rs).blobs) && Framed(headers, TakeAll(s, rs).blobs) == s
    decreases |rs|
  {
    hide HeaderFor, TakeOne;
    headers := [];
    if rs != [] {
      var front := TakeOne(s, rs[0]);
      var header := FrontIsFramed(s, rs[0]);
      var more := ReadIsFramed(front.rest, rs[1..]);
      var blobs := TakeAll(s, rs).blobs;
      headers := [header] + more;
      assert blobs[1..] == TakeAll(front.rest, rs[1..]).blobs && headers[1..] == more;
      forall i | 0 <= i < |rs|
        ensures HeaderFor(headers[i], rs[i]) && blobs[i].id == rs[i].id && |blobs[i].content| == rs[i].size {
        if i > 0 {
          assert headers[i] == more[i - 1] && rs[i] == rs[1..][i - 1] && blobs[i] == blobs[1..][i - 1];
        }
      }
    }
  }

  lemma FrontIsFramed(s: Bytes, r: Request) returns (header: Bytes)
    requires TakeOne(s, r).Read?
    ensures HeaderFor(header, r) && |TakeOne(s, r).content| == r.size
    ensures s == header + [NEWLINE] + TakeOne(s, r).content + [NEWLINE] + TakeOne(s, r).rest
  {
    hide Fault;
    var n := Find(s, 0);
    var end := n + 1 + r.size;
    header := s[..n];
    assert s == s[..n] + [s[n]] + s[n + 1..end] + [s[end]] + s[end + 1..];
  }

  /** Reading succeeds with the blobs exactly when the stream is framed for the requests. */
  lemma ReadsExactlyFramed(s: Bytes, rs: seq<Request>, blobs: seq<Blob>)
    ensures TakeAll(s, rs) == Ok(blobs) <==>
      exists headers: seq<Bytes> :: Fits(rs, headers, blobs) && Framed(headers, blobs) == s
  {
    if TakeAll(s, rs) == Ok(blobs) {
      var headers := ReadIsFramed(s, rs);
    }
    if headers: seq<Bytes> :| Fits(rs, headers, blobs) && Framed(headers, blobs) == s {
      FramedReadsBack(rs, headers, blobs);
    }
  }

  // What git writes.

  function Decimal(n: nat): Bytes {
    if n < 10 then [48 + n] else Decimal(n / 10) + [48 + n % 10]
  }

  /** An object id: nonempty printable ASCII. */
  predicate IsId(id: Bytes) { id != [] && forall b | b in id :: 33 <= b < 127 }

  function Header(b: Blob): Bytes { b.id + [32] + BLOB + [32] + Decimal(|b.content|) }

  /** The stream git writes for the blobs. */
  function Stream(blobs: seq<Blob>): Bytes {
    if blobs == [] then [] else Header(blobs[0]) + [NEWLINE] + blobs[0].content + [NEWLINE] + Stream(blobs[1..])
  }

  function Requests(blobs: seq<Blob>): seq<Request> {
    if blobs == [] then [] else [Request(blobs[0].id, |blobs[0].content|)] + Requests(blobs[1..])
  }

  lemma {:induction false} DecimalReads(n: nat)
    ensures Magnitude(Decimal(n)) == Some(n) && (forall b | b in Decimal(n) :: IsDigit(b)) && Decimal(n) != []
  {
    if n >= 10 {
      DecimalReads(n / 10);
      var s := Decimal(n);
      assert s[..|s| - 1] == Decimal(n / 10);
      assert s[|s| - 2] in Decimal(n / 10);
    }
  }

  lemma {:induction false} WordEndIs(w: Bytes, rest: Bytes)
    requires (forall b | b in w :: !IsSpace(b)) && (rest == [] || IsSpace(rest[0]))
    ensures WordEnd(w + rest) == |w|
    decreases |w|
  {
    if w == [] {
      assert w + rest == rest;
    } else {
      assert (w + rest)[0] == w[0] && w[0] in w;
      assert (w + rest)[1..] == w[1..] + rest;
      WordEndIs(w[1..], rest);
    }
  }

  lemma WordThen(w: Bytes, rest: Bytes)
    requires w != [] && (forall b | b in w :: !IsSpace(b)) && (rest == [] || IsSpace(rest[0]))
    ensures Words(w + rest) == [w] + Words(rest)
  {
    WordEndIs(w, rest);
    assert (w + rest)[..|w|] == w && (w + rest)[|w|..] == rest;
    assert (w + rest)[0] == w[0] && w[0] in w;
  }

  lemma SpaceThen(rest: Bytes)
    ensures Words([32] + rest) == Words(rest)
  {
    assert ([32] + rest)[1..] == rest;
  }

  lemma ThreeWords(a: Bytes, b: Bytes, c: Bytes)
    requires a != [] && b != [] && c != []
    requires (forall x | x in a :: !IsSpace(x)) && (forall x | x in b :: !IsSpace(x))
      && (forall x | x in c :: !IsSpace(x))
    ensures Words(a + [32] + b + [32] + c) == [a, b, c]
  {
    hide Words;
    WordThen(c, []);
    assert c + [] == c;
    assert Words([]) == [] by { NoWords(); }
    SpaceThen(c);
    WordThen(b, [32] + c);
    SpaceThen(b + ([32] + c));
    WordThen(a, [32] + (b + ([32] + c)));
    assert a + [32] + b + [32] + c == a + ([32] + (b + ([32] + c)));
  }

  lemma NoWords()
    ensures Words([]) == []
  {
  }

  lemma HeaderIsFine(b: Blob)
    requires IsId(b.id)
    ensures HeaderFor(Header(b), Request(b.id, |b.content|))
  {
    hide Words, Decimal, Magnitude;
    var d := Decimal(|b.content|);
    DecimalReads(|b.content|);
    assert d[0] in d;
    ThreeWords(b.id, BLOB, d);
    var h := Header(b);
    assert forall x | x in h :: x in b.id || x == 32 || x in BLOB || x in d;
  }

  /** What git writes for any blobs with any contents reads back as those blobs. */
  lemma {:induction false} RoundTrip(blobs: seq<Blob>)
    requires forall b | b in blobs :: IsId(b.id)
    ensures TakeAll(Stream(blobs), Requests(blobs)) == Ok(blobs)
    decreases |blobs|
  {
    if blobs != [] {
      HeaderIsFine(blobs[0]);
      FrontReadsBack(Header(blobs[0]), blobs[0].content, Stream(blobs[1..]), Request(blobs[0].id, |blobs[0].content|));
      RoundTrip(blobs[1..]);
      var rs := Requests(blobs);
      assert rs[1..] == Requests(blobs[1..]);
      assert blobs == [blobs[0]] + blobs[1..];
    }
  }
}
