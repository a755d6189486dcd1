/** A small serializer in the layout the pipelines assume of the protobuf library, so that what they assume can be
    met. Values the layout leaves open are written in some order of their own. */
module Serializer {
  import opened Wire
  import opened Segmentation
  import opened Reassembly
  import opened Frames
  import RequestPipeline
  import ResponsePipeline
  import Target

  // ---------------------------------------------------------------- prefix codes

  function Varint(n: nat): (b: Bytes)
    ensures |b| == VarintLen(n)
  {
    if n < 128 then [n] else [128 + n % 128] + Varint(n / 128)
  }

  lemma {:induction false} VarintsDecode(m: nat, n: nat, x: Bytes, y: Bytes)
    requires Varint(m) + x == Varint(n) + y
    ensures m == n && x == y
  {
    var a, b := Varint(m) + x, Varint(n) + y;
    assert a[0] == b[0];
    if m < 128 {
      assert a[1..] == x && b[1..] == y;
    } else {
      assert a[1..] == Varint(m / 128) + x && b[1..] == Varint(n / 128) + y;
      VarintsDecode(m / 128, n / 128, x, y);
    }
  }

  /** A length-delimited field. */
  function Field(tag: byte, body: Bytes): (b: Bytes)
    ensures |b| == FieldLen(|body|) && b[0] == tag
  {
    [tag] + Varint(|body|) + body
  }

  lemma FieldsDecode(tag: byte, a: Bytes, b: Bytes, x: Bytes, y: Bytes)
    requires Field(tag, a) + x == Field(tag, b) + y
    ensures a == b && x == y
  {
    assert Field(tag, a) + x == [tag] + (Varint(|a|) + (a + x));
    assert Field(tag, b) + y == [tag] + (Varint(|b|) + (b + y));
    assert ([tag] + (Varint(|a|) + (a + x)))[1..] == Varint(|a|) + (a + x);
    assert ([tag] + (Varint(|b|) + (b + y)))[1..] == Varint(|b|) + (b + y);
    VarintsDecode(|a|, |b|, a + x, b + y);
    assert (a + x)[..|a|] == a && (a + x)[|a|..] == x;
    assert (b + y)[..|b|] == b && (b + y)[|b|..] == y;
  }

  /** A scalar field, left out when zero. */
  function Scalar(tag: byte, n: nat): (b: Bytes)
    ensures |b| == ScalarLen(n)
  {
    if n == 0 then [] else [tag] + Varint(n)
  }

  predicate Apart(tag: byte, b: Bytes) {
    b != [] ==> b[0] != tag
  }

  lemma ScalarsDecode(tag: byte, m: nat, n: nat, x: Bytes, y: Bytes)
    requires Scalar(tag, m) + x == Scalar(tag, n) + y && Apart(tag, x) && Apart(tag, y)
    ensures m == n && x == y
  {
    ScalarStart(tag, m, x);
    ScalarStart(tag, n, y);
    hide Scalar, Varint;
    if m != 0 && n != 0 {
      Regroup([tag], Varint(m), x);
      Regroup([tag], Varint(n), y);
      VarintsDecode(m, n, x, y);
    }
  }

  /** Whether the scalar is there shows at the first byte. */
  lemma ScalarStart(tag: byte, n: nat, x: Bytes)
    requires Apart(tag, x)
    ensures Scalar(tag, n) + x == if n == 0 then x else [tag] + Varint(n) + x
    ensures n != 0 <==> Scalar(tag, n) + x != [] && (Scalar(tag, n) + x)[0] == tag
  {
  }

  lemma Regroup(head: Bytes, middle: Bytes, rest: Bytes)
    requires |head| == 1
    ensures (head + middle + rest)[1..] == middle + rest
  {
  }

  // ---------------------------------------------------------------- strings, lists and maps

  /** Whatever follows, code and rest can be told apart. */
  ghost predicate PrefixFree<T(!new)>(enc: T -> Bytes) {
    forall a, b, x, y :: enc(a) + x == enc(b) + y ==> a == b && x == y
  }

  function List<T>(enc: T -> Bytes, ts: seq<T>): Bytes {
    if ts == [] then [0] else [1] + enc(ts[0]) + List(enc, ts[1..])
  }

  lemma {:induction false} ListsDecode<T(!new)>(enc: T -> Bytes, s: seq<T>, t: seq<T>, x: Bytes, y: Bytes)
    requires PrefixFree(enc) && List(enc, s) + x == List(enc, t) + y
    ensures s == t && x == y
  {
    var a, b := List(enc, s) + x, List(enc, t) + y;
    assert a[0] == b[0];
    if s == [] {
      assert a[1..] == x && b[1..] == y;
    } else {
      assert a[1..] == enc(s[0]) + (List(enc, s[1..]) + x);
      assert b[1..] == enc(t[0]) + (List(enc, t[1..]) + y);
      ListsDecode(enc, s[1..], t[1..], x, y);
      assert s == [s[0]] + s[1..] && t == [t[0]] + t[1..];
    }
  }

  lemma ListIsPrefixFree<T(!new)>(enc: T -> Bytes)
    requires PrefixFree(enc)
    ensures PrefixFree((ts: seq<T>) => List(enc, ts))
  {
    forall s: seq<T>, t: seq<T>, x, y | List(enc, s) + x == List(enc, t) + y ensures s == t && x == y {
      ListsDecode(enc, s, t, x, y);
    }
  }

  const CHARACTER: char -> Bytes := (c: char) => Varint(c as nat)
  const TEXT: string -> Bytes := (s: string) => List(CHARACTER, s)
  const TEXTS: seq<string> -> Bytes := (ss: seq<string>) => List(TEXT, ss)
  const ENTRY: ((string, seq<string>)) -> Bytes := (e: (string, seq<string>)) => TEXT(e.0) + TEXTS(e.1)

  lemma TextsDecode()
    ensures PrefixFree(TEXT) && PrefixFree(TEXTS)
  {
    forall a: char, b: char, x, y | CHARACTER(a) + x == CHARACTER(b) + y ensures a == b && x == y {
      VarintsDecode(a as nat, b as nat, x, y);
    }
    ListIsPrefixFree(CHARACTER);
    ListIsPrefixFree(TEXT);
  }

  lemma EntriesDecode()
    ensures PrefixFree(ENTRY)
  {
    TextsDecode();
    forall a, b, x, y | ENTRY(a) + x == ENTRY(b) + y ensures a == b && x == y {
      assert ENTRY(a) + x == TEXT(a.0) + (TEXTS(a.1) + x);
      assert ENTRY(b) + y == TEXT(b.0) + (TEXTS(b.1) + y);
    }
  }

  function MapOf<V>(es: seq<(string, V)>): map<string, V> {
    if es == [] then map[] else MapOf(es[1..])[es[0].0 := es[0].1]
  }

  lemma {:induction false} MapsAreListed<V>(m: map<string, V>)
    ensures exists es :: MapOf(es) == m
    decreases |m|
  {
    if m == map[] {
      assert MapOf<V>([]) == m;
    } else {
      var k :| k in m;
      var rest := m - {k};
      assert rest.Keys == m.Keys - {k} && |rest.Keys| < |m.Keys|;
      MapsAreListed(rest);
      var es :| MapOf(es) == rest;
      assert MapOf([(k, m[k])] + es) == rest[k := m[k]];
      assert rest[k := m[k]] == m;
    }
  }

  /** Some listing of the map, always the same one. */
  ghost function Listed<V>(m: map<string, V>): (es: seq<(string, V)>)
    ensures MapOf(es) == m
  {
    MapsAreListed(m);
    var es :| MapOf(es) == m;
    es
  }

  // ---------------------------------------------------------------- frames

  function ContentBytes(c: Content): (b: Bytes)
    ensures |b| == ContentLen(c)
  {
    match c
    case Message(data) => Field(10, data)
    case Piece(Chunk(total, offset, data)) =>
      Field(18, Scalar(8, total) + (Scalar(16, offset) + if data == [] then [] else Field(26, data)))
    case NoContent => []
  }

  lemma ContentsDecode(c: Content, d: Content)
    requires ContentBytes(c) == ContentBytes(d)
    ensures c == d
  {
    var a, b := ContentBytes(c), ContentBytes(d);
    assert c.NoContent? <==> a == [];
    assert d.NoContent? <==> b == [];
    if c.Message? {
      assert d.Message?;
      assert a + [] == a && b + [] == b;
      FieldsDecode(10, c.data, d.data, [], []);
    } else if c.Piece? {
      assert d.Piece?;
      assert a + [] == a && b + [] == b;
      PiecesDecode(c.chunk, d.chunk);
    }
  }

  function Tail(data: Bytes): Bytes {
    if data == [] then [] else Field(26, data)
  }

  lemma PiecesDecode(c: Chunk, d: Chunk)
    requires ContentBytes(Piece(c)) == ContentBytes(Piece(d))
    ensures c == d
  {
    var p, q := Scalar(16, c.offset) + Tail(c.data), Scalar(16, d.offset) + Tail(d.data);
    assert ContentBytes(Piece(c)) + [] == Field(18, Scalar(8, c.total) + p) + [];
    assert ContentBytes(Piece(d)) + [] == Field(18, Scalar(8, d.total) + q) + [];
    FieldsDecode(18, Scalar(8, c.total) + p, Scalar(8, d.total) + q, [], []);
    assert Apart(8, p) && Apart(8, q);
    ScalarsDecode(8, c.total, d.total, p, q);
    ScalarsDecode(16, c.offset, d.offset, Tail(c.data), Tail(d.data));
    if c.data != [] {
      assert Tail(c.data) + [] == Tail(c.data) && Tail(d.data) + [] == Tail(d.data);
      FieldsDecode(26, c.data, d.data, [], []);
    }
  }

  function Inline(tag: byte, data: Option<Bytes>): Bytes {
    if data.Some? then Field(tag, data.value) else []
  }

  lemma InlinesDecode(tag: byte, a: Option<Bytes>, b: Option<Bytes>)
    ensures Inline(tag, a) == Inline(tag, b) ==> a == b
  {
    if Inline(tag, a) == Inline(tag, b) && a.Some? && b.Some? {
      assert Field(tag, a.value) + [] == Field(tag, b.value) + [];
      FieldsDecode(tag, a.value, b.value, [], []);
    }
  }

  function RequestBytes(b: Request): Bytes {
    match b
    case Call(path, inline) => Field(18, TEXT(path) + Inline(26, inline))
    case Data(content) => Field(26, ContentBytes(content))
    case End(closeSend) => Field(34, Scalar(8, if closeSend then 1 else 0))
    case NoRequest => []
  }

  lemma RequestsDecode(a: Request, b: Request)
    requires RequestBytes(a) == RequestBytes(b)
    ensures a == b
  {
    var x, y := RequestBytes(a), RequestBytes(b);
    assert x + [] == x && y + [] == y;
    match a
    case Call(path, inline) =>
      var p, q := Inline(26, inline), Inline(26, b.inline);
      FieldsDecode(18, TEXT(path) + p, TEXT(b.path) + q, [], []);
      TextsDecode();
      InlinesDecode(26, inline, b.inline);
    case Data(content) =>
      FieldsDecode(26, ContentBytes(content), ContentBytes(b.content), [], []);
      ContentsDecode(content, b.content);
    case End(closeSend) =>
      FieldsDecode(34, Scalar(8, if closeSend then 1 else 0), Scalar(8, if b.closeSend then 1 else 0), [], []);
    case NoRequest =>
  }

  function Routed(sequence: int, body: Bytes): Bytes {
    Field(10, Scalar(8, if sequence >= 0 then sequence else 0)) + body
  }

  lemma RoutedDecode(s: nat, t: nat, x: Bytes, y: Bytes)
    requires Routed(s, x) == Routed(t, y)
    ensures s == t && x == y
  {
    FieldsDecode(10, Scalar(8, s), Scalar(8, t), x, y);
    assert Scalar(8, s) + [] == Scalar(8, s) && Scalar(8, t) + [] == Scalar(8, t);
    ScalarsDecode(8, s, t, [], []);
  }

  function Zigzag(code: int): nat {
    if code >= 0 then 2 * code else -2 * code - 1
  }

  function StatusBytes(status: Option<Status>): Bytes {
    match status
    case None => [0]
    case Some(Status(code, message)) => [1] + Varint(Zigzag(code)) + TEXT(message)
  }

  lemma StatusSplits(status: Option<Status>, x: Bytes)
    ensures var b := StatusBytes(status) + x;
            && b[0] == (if status == None then 0 else 1)
            && b[1..] ==
                 if status == None then x else Varint(Zigzag(status.value.code)) + (TEXT(status.value.message) + x)
  {
    hide Varint, List;
    if status.Some? {
      var code, text := Varint(Zigzag(status.value.code)), TEXT(status.value.message);
      assert ([1] + code + text) + x == [1] + (code + (text + x));
    }
  }

  lemma StatusesDecode(a: Option<Status>, b: Option<Status>, x: Bytes, y: Bytes)
    requires StatusBytes(a) + x == StatusBytes(b) + y
    ensures a == b && x == y
  {
    StatusSplits(a, x);
    StatusSplits(b, y);
    hide StatusBytes, Varint, List;
    if a.Some? {
      VarintsDecode(Zigzag(a.value.code), Zigzag(b.value.code), TEXT(a.value.message) + x, TEXT(b.value.message) + y);
      TextsDecode();
    }
  }

  ghost function MapBytes(m: Metadata): Bytes {
    List(ENTRY, Listed(m))
  }

  lemma MapsDecode(m: Metadata, n: Metadata)
    ensures MapBytes(m) == MapBytes(n) ==> m == n
  {
    if MapBytes(m) == MapBytes(n) {
      EntriesDecode();
      assert MapBytes(m) + [] == MapBytes(n) + [];
      ListsDecode(ENTRY, Listed(m), Listed(n), [], []);
    }
  }

  /** Left out when empty. */
  ghost function HeaderBytes(m: Metadata): Bytes {
    if m == map[] then [] else Field(10, MapBytes(m))
  }

  lemma BeginsDecode(m: Metadata, n: Metadata, x: Bytes, y: Bytes)
    requires HeaderBytes(m) + x == HeaderBytes(n) + y && Apart(10, x) && Apart(10, y)
    ensures m == n && x == y
  {
    var p, q := HeaderBytes(m) + x, HeaderBytes(n) + y;
    hide Field, MapBytes;
    assert m == map[] ==> p == x;
    assert n == map[] ==> q == y;
    assert m != map[] ==> p[0] == 10;
    assert n != map[] ==> q[0] == 10;
    if m != map[] && n != map[] {
      FieldsDecode(10, MapBytes(m), MapBytes(n), x, y);
      MapsDecode(m, n);
    }
  }

  ghost function ResponseBytes(b: Response): Bytes {
    match b
    case Begin(header, inline) => Field(18, HeaderBytes(header) + Inline(18, inline))
    case ResponseData(content) => Field(26, ContentBytes(content))
    case ResponseEnd(status, trailer) => Field(34, StatusBytes(status) + MapBytes(trailer))
    case NoResponse => []
  }

  lemma ResponsesDecode(a: Response, b: Response)
    requires ResponseBytes(a) == ResponseBytes(b)
    ensures a == b
  {
    var x, y := ResponseBytes(a), ResponseBytes(b);
    assert x + [] == x && y + [] == y;
    match a
    case Begin(header, inline) =>
      var p, q := Inline(18, inline), Inline(18, b.beginInline);
      FieldsDecode(18, HeaderBytes(header) + p, HeaderBytes(b.header) + q, [], []);
      BeginsDecode(header, b.header, p, q);
      InlinesDecode(18, inline, b.beginInline);
    case ResponseData(content) =>
      FieldsDecode(26, ContentBytes(content), ContentBytes(b.responseContent), [], []);
      ContentsDecode(content, b.responseContent);
    case ResponseEnd(status, trailer) =>
      var p, q := MapBytes(trailer), MapBytes(b.trailer);
      FieldsDecode(34, StatusBytes(status) + p, StatusBytes(b.status) + q, [], []);
      StatusesDecode(status, b.status, p, q);
      MapsDecode(trailer, b.trailer);
    case NoResponse =>
  }

  // ---------------------------------------------------------------- the assumptions can be met

  /** Decoding by looking for what was encoded. */
  ghost function Inverse<F(!new)>(valid: F -> bool, encode: F -> Bytes): Bytes -> Option<F> {
    (b: Bytes) =>
      if exists f :: valid(f) && encode(f) == b then (var f :| valid(f) && encode(f) == b; Some(f)) else None
  }

  lemma InverseInverts<F(!new)>(valid: F -> bool, encode: F -> Bytes, f: F)
    requires valid(f) && forall g, h :: valid(g) && valid(h) && encode(g) == encode(h) ==> g == h
    ensures Inverse(valid, encode)(encode(f)) == Some(f)
  {
  }

  lemma RequestsCanBeMet()
    ensures exists c :: RequestPipeline.ProtobufRequests(c)
  {
    var encode := (f: Frame) => Routed(f.sequence, RequestBytes(f.body));
    var valid := (f: Frame) => RequestPipeline.InRange(f);
    forall g: Frame, h: Frame | valid(g) && valid(h) && encode(g) == encode(h) ensures g == h {
      RoutedDecode(g.sequence, h.sequence, RequestBytes(g.body), RequestBytes(h.body));
      RequestsDecode(g.body, h.body);
    }
    var c := Codec(encode, Inverse(valid, encode));
    forall f: Frame | valid(f)
      ensures c.decode(c.encode(f)) == Some(f)
      ensures f.body.Data? ==> |c.encode(f)| == DataFrameLen(f.sequence, f.body.content)
      ensures f.body.End? ==>
                |c.encode(f)| == FieldLen(ScalarLen(f.sequence)) + FieldLen(if f.body.closeSend then 2 else 0) {
      InverseInverts(valid, encode, f);
    }
    assert RequestPipeline.ProtobufRequests(c);
  }

  lemma ResponsesCanBeMet()
    ensures exists c :: ResponsePipeline.ProtobufResponses(c)
  {
    ghost var encode := (f: ResponseFrame) => Routed(f.sequence, ResponseBytes(f.body));
    var valid := (f: ResponseFrame) => ResponsePipeline.InRange(f);
    forall g: ResponseFrame, h: ResponseFrame | valid(g) && valid(h) && encode(g) == encode(h) ensures g == h {
      RoutedDecode(g.sequence, h.sequence, ResponseBytes(g.body), ResponseBytes(h.body));
      ResponsesDecode(g.body, h.body);
    }
    var c := Codec(encode, Inverse(valid, encode));
    forall f: ResponseFrame | valid(f)
      ensures c.decode(c.encode(f)) == Some(f)
      ensures f.body.ResponseData? ==> |c.encode(f)| == DataFrameLen(f.sequence, f.body.responseContent)
      ensures f.body.Begin? && f.body.header == map[] ==>
                |c.encode(f)| == ResponsePipeline.BeginFrameLen(f.sequence, f.body.beginInline) {
      InverseInverts(valid, encode, f);
    }
    assert ResponsePipeline.ProtobufResponses(c);
  }

  const PAIR: ((string, string)) -> Bytes := (e: (string, string)) => TEXT(e.0) + TEXT(e.1)

  lemma PairsDecode()
    ensures PrefixFree(PAIR)
  {
    TextsDecode();
    forall a, b, x, y | PAIR(a) + x == PAIR(b) + y ensures a == b && x == y {
      assert PAIR(a) + x == TEXT(a.0) + (TEXT(a.1) + x);
      assert PAIR(b) + y == TEXT(b.0) + (TEXT(b.1) + y);
    }
  }

  ghost function QueryText(m: map<string, string>): string {
    var b := List(PAIR, Listed(m));
    if m == map[] then "" else seq(|b|, i requires 0 <= i < |b| => b[i] as char)
  }

  lemma QueryTextsDecode(m: map<string, string>, n: map<string, string>)
    requires QueryText(m) == QueryText(n)
    ensures m == n
  {
    var a, b := List(PAIR, Listed(m)), List(PAIR, Listed(n));
    assert QueryText(m) == "" <==> m == map[];
    assert QueryText(n) == "" <==> n == map[];
    if m != map[] {
      forall i | 0 <= i < |a| ensures a[i] == b[i] {
        assert QueryText(m)[i] == a[i] as char && QueryText(n)[i] == b[i] as char;
      }
      assert a + [] == b + [];
      PairsDecode();
      ListsDecode(PAIR, Listed(m), Listed(n), [], []);
    }
  }

  lemma QueriesCanBeMet()
    ensures exists q :: Target.UrlQuery(q)
  {
    ghost var encode := (m: map<string, string>) => QueryText(m);
    ghost var decode := (s: string) =>
      if exists m :: QueryText(m) == s then (var m :| QueryText(m) == s; Some(m)) else None;
    var q := Target.Query(encode, decode);
    forall m: map<string, string>
      ensures q.decode(q.encode(m)) == Some(m) && (q.encode(m) == "" <==> m == map[]) {
      forall n | QueryText(n) == QueryText(m) ensures n == m { QueryTextsDecode(n, m); }
    }
    assert Target.UrlQuery(q);
  }
}
