/** Target URIs: printing and parsing in Rust and in Go. A string stands for its bytes. */
module Target {
  import opened Wire

  // ---------------------------------------------------------------- searching

  /** Index of the first `c`, or |s|. */
  function Find(s: string, c: char): (i: nat)
    ensures i <= |s| && c !in s[..i] && (i < |s| ==> s[i] == c)
  {
    if s == "" || s[0] == c then 0 else 1 + Find(s[1..], c)
  }

  const SEP: string := "://"

  /** Index of the first separator, or |s|. */
  function FindSep(s: string): (i: nat)
    ensures i <= |s| && (i < |s| ==> SEP <= s[i..])
  {
    if s == "" || SEP <= s then 0 else 1 + FindSep(s[1..])
  }

  lemma {:induction false} NoSepBefore(s: string, j: nat)
    requires j < FindSep(s)
    ensures !(SEP <= s[j..])
  {
    if j > 0 {
      NoSepBefore(s[1..], j - 1);
      assert s[1..][j - 1..] == s[j..];
    } else {
      assert s[0..] == s;
    }
  }

  lemma FoundAt(s: string, c: char, i: nat)
    requires i <= |s| && c !in s[..i] && (i < |s| ==> s[i] == c)
    ensures Find(s, c) == i
  {
  }

  // ---------------------------------------------------------------- percent decoding

  function HexDigit(b: char): Option<nat> {
    if '0' <= b <= '9' then Some((b - '0') as nat)
    else if 'a' <= b <= 'f' then Some((b - 'a') as nat + 10)
    else if 'A' <= b <= 'F' then Some((b - 'A') as nat + 10)
    else None
  }

  predicate EscapeAt(s: string, i: int) {
    0 <= i && i + 2 < |s| && s[i] == '%' && HexDigit(s[i + 1]).Some? && HexDigit(s[i + 2]).Some?
  }

  function ByteAt(s: string, i: int): char
    requires EscapeAt(s, i)
  {
    HexBounds(s[i + 1]);
    HexBounds(s[i + 2]);
    (HexDigit(s[i + 1]).value * 16 + HexDigit(s[i + 2]).value) as char
  }

  lemma HexBounds(b: char)
    requires HexDigit(b).Some?
    ensures HexDigit(b).value < 16
  {
  }

  function Decode(s: string): (out: string)
    ensures |out| <= |s|
  {
    if s == "" then "" else
    if EscapeAt(s, 0) then [ByteAt(s, 0)] + Decode(s[3..]) else [s[0]] + Decode(s[1..])
  }

  method PercentDecode(s: string) returns (out: string)
    ensures out == Decode(s)
  {
    out := "";
    var i := 0;
    while i < |s|
      invariant 0 <= i <= |s| && out + Decode(s[i..]) == Decode(s)
    {
      DecodeStep(s, i);
      hide Decode, HexDigit, ByteAt;
      if s[i] == '%' && i + 2 < |s| {
        var hi, lo := HexDigit(s[i + 1]), HexDigit(s[i + 2]);
        if hi.Some? && lo.Some? {
          assert EscapeAt(s, i);
          Regroup(out, ByteAt(s, i), Decode(s[i + 3..]));
          out := out + [ByteAt(s, i)];
          i := i + 3;
          continue;
        }
      }
      Regroup(out, s[i], Decode(s[i + 1..]));
      out := out + [s[i]];
      i := i + 1;
    }
  }

  lemma Regroup(out: string, c: char, later: string)
    ensures out + ([c] + later) == (out + [c]) + later
  {
  }

  lemma DecodeStep(s: string, i: nat)
    requires i < |s|
    ensures Decode(s[i..]) ==
              if EscapeAt(s, i) then [ByteAt(s, i)] + Decode(s[i + 3..]) else [s[i]] + Decode(s[i + 1..])
  {
  }

  predicate HasEscape(s: string) {
    exists i :: 0 <= i < |s| && EscapeAt(s, i)
  }

  lemma EscapeShifts(s: string, i: nat)
    requires s != ""
    ensures EscapeAt(s, i + 1) <==> EscapeAt(s[1..], i)
  {
  }

  lemma EscapesInTail(s: string)
    requires s != ""
    ensures HasEscape(s) <==> EscapeAt(s, 0) || HasEscape(s[1..])
  {
    if HasEscape(s) {
      var i :| 0 <= i < |s| && EscapeAt(s, i);
      if i > 0 { EscapeShifts(s, i - 1); }
    }
    if HasEscape(s[1..]) {
      var i :| 0 <= i < |s[1..]| && EscapeAt(s[1..], i);
      EscapeShifts(s, i);
    }
  }

  /** Decoding changes exactly the strings that hold an escape, and shortens those. */
  lemma {:induction false} DecodeKeeps(s: string)
    ensures Decode(s) == s <==> !HasEscape(s)
    ensures HasEscape(s) <==> |Decode(s)| < |s|
  {
    if s != "" {
      DecodeKeeps(s[1..]);
      EscapesInTail(s);
      hide HasEscape;
      if EscapeAt(s, 0) {
        assert |Decode(s)| <= 1 + |s[3..]|;
      } else {
        assert s == [s[0]] + s[1..];
      }
    }
  }

  const HEX: string := "0123456789ABCDEF"
  const LOWER_HEX: string := "0123456789abcdef"

  /** Section 2.1 of RFC 3986, for every byte outside `plain`, with digits in either case. */
  function PercentEncode(plain: set<char>, lower: bool, s: string): string
    requires forall i :: 0 <= i < |s| ==> s[i] as int < 256
  {
    if s == "" then "" else
    var hex := if lower then LOWER_HEX else HEX;
    (if s[0] in plain then [s[0]] else ['%', hex[s[0] as int / 16], hex[s[0] as int % 16]])
    + PercentEncode(plain, lower, s[1..])
  }

  lemma HexRoundTrip(n: nat)
    requires n < 16
    ensures HexDigit(HEX[n]) == Some(n) && HexDigit(LOWER_HEX[n]) == Some(n)
  {
  }

  lemma EscapeDecodes(c: nat, lower: bool, later: string)
    requires c < 256
    ensures var hex := if lower then LOWER_HEX else HEX;
            Decode(['%', hex[c / 16], hex[c % 16]] + later) == [c as char] + Decode(later)
  {
    var hex := if lower then LOWER_HEX else HEX;
    var e := ['%', hex[c / 16], hex[c % 16]] + later;
    HexRoundTrip(c / 16);
    HexRoundTrip(c % 16);
    assert EscapeAt(e, 0) && ByteAt(e, 0) == c as char;
    assert e[3..] == later;
  }

  /** Decoding undoes encoding, whatever is left plain except the percent sign itself. */
  lemma {:induction false} DecodeUndoesEncode(plain: set<char>, lower: bool, s: string)
    requires '%' !in plain && forall i :: 0 <= i < |s| ==> s[i] as int < 256
    ensures Decode(PercentEncode(plain, lower, s)) == s
  {
    if s != "" {
      var later, c := PercentEncode(plain, lower, s[1..]), s[0] as int;
      var hex := if lower then LOWER_HEX else HEX;
      DecodeUndoesEncode(plain, lower, s[1..]);
      var e := PercentEncode(plain, lower, s);
      if s[0] in plain {
        assert e[1..] == later;
      } else {
        EscapeDecodes(c, lower, later);
        assert e == ['%', hex[c / 16], hex[c % 16]] + later;
        hide Decode;
      }
      assert s == [s[0]] + s[1..];
    }
  }

  // ---------------------------------------------------------------- the parts of a URI

  const PREFIX: string := "peerrpc+"

  datatype Error =
    | MissingPrefix
    | MissingSeparator
    | UnknownScheme(name: string)
    | MissingService
    | EmptyAuthority
    | BadQuery

  datatype Result<+T> = Ok(value: T) | Err(error: Error)

  datatype Parts = Parts(scheme: string, authority: string, service: string, query: string)

  /** Separator first. */
  function Cut(uri: string): Result<Parts> {
    if !(PREFIX <= uri) then Err(MissingPrefix) else
    var rest := uri[|PREFIX|..];
    var sep := FindSep(rest);
    if sep == |rest| then Err(MissingSeparator) else Ok(CutAfter(rest[..sep], rest[sep + |SEP|..]))
  }

  /** Authority up to the first slash, then service up to the first question mark. */
  function CutAfter(scheme: string, after: string): Parts {
    var slash := Find(after, '/');
    var path := if slash < |after| then after[slash + 1..] else "";
    var mark := Find(path, '?');
    Parts(scheme, after[..slash], path[..mark], if mark < |path| then path[mark + 1..] else "")
  }

  function Printed(scheme: string, authority: string, service: string, query: string): string {
    PREFIX + scheme + SEP + authority + "/" + service + if query == "" then "" else "?" + query
  }

  lemma SepAtHead(scheme: string, rest: string)
    requires scheme != ""
    ensures SEP <= scheme + SEP + rest <==> SEP <= scheme
  {
    var s := scheme + SEP + rest;
    assert s[|scheme|] == ':';
    if |scheme| >= 3 { assert s[..3] == scheme[..3]; }
    assert SEP <= s <==> |s| >= 3 && s[0] == ':' && s[1] == '/' && s[2] == '/';
  }

  lemma FindSepSteps(s: string)
    ensures FindSep(s) == if s == "" || SEP <= s then 0 else 1 + FindSep(s[1..])
  {
  }

  lemma TailOfJoin(scheme: string, rest: string)
    requires scheme != ""
    ensures (scheme + SEP + rest)[1..] == scheme[1..] + SEP + rest
  {
  }

  /** The first separator behind a scheme is its own, or one inside the scheme. */
  lemma {:induction false} FirstSep(scheme: string, rest: string)
    ensures FindSep(scheme + SEP + rest) == FindSep(scheme)
  {
    hide FindSep;
    var s := scheme + SEP + rest;
    FindSepSteps(s);
    FindSepSteps(scheme);
    if scheme == "" {
      assert SEP + rest == s;
    } else {
      FirstSep(scheme[1..], rest);
      SepAtHead(scheme, rest);
      TailOfJoin(scheme, rest);
    }
  }

  lemma {:induction false} NoColonNoSep(scheme: string)
    requires ':' !in scheme
    ensures FindSep(scheme) == |scheme|
  {
    if scheme != "" {
      NoColonNoSep(scheme[1..]);
      assert scheme[0] != ':';
    }
  }

  lemma CutPrinted(scheme: string, authority: string, service: string, query: string)
    requires ':' !in scheme
    ensures Cut(Printed(scheme, authority, service, query))
         == Ok(CutAfter(scheme, authority + "/" + service + if query == "" then "" else "?" + query))
  {
    var after := authority + "/" + service + if query == "" then "" else "?" + query;
    var uri := Printed(scheme, authority, service, query);
    assert uri == PREFIX + (scheme + SEP + after);
    hide Printed;
    FirstSep(scheme, after);
    NoColonNoSep(scheme);
    CutSeparated(scheme, after);
  }

  lemma CutSeparated(scheme: string, after: string)
    requires FindSep(scheme + SEP + after) == |scheme|
    ensures Cut(PREFIX + (scheme + SEP + after)) == Ok(CutAfter(scheme, after))
  {
    hide Cut, CutAfter, FindSep;
    var rest := scheme + SEP + after;
    CutAt(rest);
    Rejoin(scheme + SEP, after);
    assert rest[..|scheme|] == scheme;
  }

  lemma CutAt(rest: string)
    requires FindSep(rest) < |rest|
    ensures var sep := FindSep(rest); Cut(PREFIX + rest) == Ok(CutAfter(rest[..sep], rest[sep + |SEP|..]))
  {
    hide CutAfter, FindSep;
    Rejoin(PREFIX, rest);
  }

  lemma Rejoin(a: string, b: string)
    ensures (a + b)[..|a|] == a && (a + b)[|a|..] == b
  {
  }

  /** What was printed is cut where it was joined exactly if the authority has no slash and the service no question
      mark; otherwise authority or service comes out different. */
  lemma CutWhereJoined(scheme: string, authority: string, service: string, query: string)
    ensures var p := CutAfter(scheme, authority + "/" + service + if query == "" then "" else "?" + query);
            && (('/' !in authority && '?' !in service) ==> p == Parts(scheme, authority, service, query))
            && (('/' in authority || '?' in service) ==> p.authority != authority || p.service != service)
  {
    hide Find, CutAfter;
    var path := service + if query == "" then "" else "?" + query;
    var after := authority + "/" + path;
    assert authority + "/" + service + (if query == "" then "" else "?" + query) == after;
    CutAuthority(authority, path);
    CutService(service, query);
    CutAfterSlash(scheme, after);
  }

  lemma CutAfterSlash(scheme: string, after: string)
    ensures var p, slash := CutAfter(scheme, after), Find(after, '/');
            && p.scheme == scheme && p.authority == after[..slash]
            && (slash < |after| ==>
                  var path := after[slash + 1..];
                  var mark := Find(path, '?');
                  p.service == path[..mark] && p.query == if mark < |path| then path[mark + 1..] else "")
  {
    hide Find;
  }

  lemma CutAuthority(authority: string, path: string)
    ensures var after := authority + "/" + path;
            var slash := Find(after, '/');
            && ('/' !in authority ==> slash == |authority| && after[..slash] == authority && after[slash + 1..] == path)
            && ('/' in authority ==> after[..slash] != authority)
  {
    var after := authority + "/" + path;
    assert after[..|authority|] == authority;
    if '/' !in authority {
      FoundAt(after, '/', |authority|);
    } else {
      FirstIsInside(after, authority, '/');
    }
  }

  lemma FirstIsInside(s: string, front: string, c: char)
    requires front <= s && c in front
    ensures Find(s, c) < |front|
  {
  }

  lemma CutService(service: string, query: string)
    ensures var path := service + if query == "" then "" else "?" + query;
            var mark := Find(path, '?');
            && ('?' !in service ==>
                  path[..mark] == service && (if mark < |path| then path[mark + 1..] else "") == query)
            && ('?' in service ==> path[..mark] != service)
  {
    var path := service + if query == "" then "" else "?" + query;
    assert path[..|service|] == service;
    if '?' !in service {
      FoundAt(path, '?', |service|);
    } else {
      FirstIsInside(path, service, '?');
    }
  }

  // ---------------------------------------------------------------- Rust

  datatype Scheme = Local | Connect | Ws | RelayHop
  datatype Role = Client | Server
  datatype Target = Target(scheme: Scheme, signal: string, service: string,
                           role: Option<Role>, peer: Option<string>, token: Option<string>)

  function Name(s: Scheme): (name: string)
    ensures ':' !in name && SchemeOf(name) == Some(s)
  {
    match s
    case Local => "local"
    case Connect => "connect"
    case Ws => "ws"
    case RelayHop => "relay"
  }

  function SchemeOf(name: string): Option<Scheme> {
    if name == "local" then Some(Local)
    else if name == "connect" then Some(Connect)
    else if name == "ws" then Some(Ws)
    else if name == "relay" then Some(RelayHop)
    else None
  }

  function RoleName(r: Role): string {
    match r case Client => "client" case Server => "server"
  }

  function ApplyPair(t: Target, pair: string): Target {
    var eq := Find(pair, '=');
    if eq == |pair| then t else
    var k, v := pair[..eq], Decode(pair[eq + 1..]);
    if k == "as" then t.(role := if v == "client" then Some(Client) else if v == "server" then Some(Server) else None)
    else if k == "peer" then t.(peer := Some(v))
    else if k == "token" then t.(token := Some(v))
    else t
  }

  /** The pairs of a query, from left to right. */
  function ApplyQuery(t: Target, q: string): Target
    decreases |q|
  {
    var amp := Find(q, '&');
    if amp == |q| then ApplyPair(t, q) else ApplyQuery(ApplyPair(t, q[..amp]), q[amp + 1..])
  }

  function Parse(uri: string): Result<Target> {
    match Cut(uri)
    case Err(e) => Err(e)
    case Ok(p) =>
      var scheme := SchemeOf(p.scheme);
      if scheme == None then Err(UnknownScheme(p.scheme))
      else if p.service == "" then Err(MissingService)
      else if p.authority == "" && scheme.value != Local then Err(EmptyAuthority)
      else
        var t := Target(scheme.value, p.authority, p.service, None, None, None);
        Ok(if p.query == "" then t else ApplyQuery(t, p.query))
  }

  function AddOption(q: string, key: string, value: string): (r: string)
    requires key != ""
    ensures r != ""
  {
    (if q == "" then "" else q + "&") + key + "=" + value
  }

  function QueryOf(t: Target): string {
    var q0 := if t.role.Some? then AddOption("", "as", RoleName(t.role.value)) else "";
    var q1 := if t.peer.Some? then AddOption(q0, "peer", t.peer.value) else q0;
    if t.token.Some? then AddOption(q1, "token", t.token.value) else q1
  }

  function Format(t: Target): string {
    Printed(Name(t.scheme), t.signal, t.service, QueryOf(t))
  }

  function ApplyAll(t: Target, q: string): Target {
    if q == "" then t else ApplyQuery(t, q)
  }

  // ---------------------------------------------------------------- the query

  lemma {:induction false} QueriesConcatenate(t: Target, a: string, b: string)
    ensures ApplyQuery(t, a + "&" + b) == ApplyQuery(ApplyQuery(t, a), b)
    decreases |a|
  {
    hide ApplyPair;
    var all, amp := a + "&" + b, Find(a, '&');
    if amp == |a| {
      assert all[..|a|] == a;
      FoundAt(all, '&', |a|);
      assert all[|a| + 1..] == b;
    } else {
      assert all[..amp] == a[..amp];
      FoundAt(all, '&', amp);
      assert all[amp + 1..] == a[amp + 1..] + "&" + b;
      QueriesConcatenate(ApplyPair(t, a[..amp]), a[amp + 1..], b);
    }
  }

  lemma OptionApplies(t: Target, q: string, key: string, value: string)
    requires key != ""
    ensures ApplyAll(t, AddOption(q, key, value)) == ApplyQuery(ApplyAll(t, q), key + "=" + value)
  {
    hide ApplyQuery;
    if q == "" {
      assert AddOption(q, key, value) == key + "=" + value;
    } else {
      assert AddOption(q, key, value) == q + "&" + (key + "=" + value);
      QueriesConcatenate(t, q, key + "=" + value);
    }
  }

  predicate ShorterThan(v: Option<string>, n: nat) {
    v.Some? && |v.value| < n
  }

  lemma PairShortens(t: Target, pair: string, n: nat)
    requires |pair| <= n
    ensures ShorterThan(t.peer, n) ==> ShorterThan(ApplyPair(t, pair).peer, n)
    ensures ShorterThan(t.token, n) ==> ShorterThan(ApplyPair(t, pair).token, n)
  {
  }

  /** A value read from a query is shorter than the query. */
  lemma {:induction false} QueryShortens(t: Target, q: string, n: nat)
    requires |q| <= n
    ensures ShorterThan(t.peer, n) ==> ShorterThan(ApplyQuery(t, q).peer, n)
    ensures ShorterThan(t.token, n) ==> ShorterThan(ApplyQuery(t, q).token, n)
    decreases |q|
  {
    hide ApplyPair;
    var amp := Find(q, '&');
    if amp == |q| {
      PairShortens(t, q, n);
    } else {
      PairShortens(t, q[..amp], n);
      QueryShortens(ApplyPair(t, q[..amp]), q[amp + 1..], n);
    }
  }

  /** A value comes back exactly if it holds no ampersand and no escape. */
  predicate Plain(v: string) {
    '&' !in v && !HasEscape(v)
  }

  lemma KeyFound(key: string, value: string)
    requires '=' !in key
    ensures var pair := key + "=" + value;
            Find(pair, '=') == |key| && pair[..|key|] == key && pair[|key| + 1..] == value
  {
    var pair := key + "=" + value;
    assert pair[..|key|] == key;
    FoundAt(pair, '=', |key|);
  }

  lemma OneOption(t: Target, key: string, value: string)
    requires key == "as" || key == "peer" || key == "token"
    requires '&' !in value
    ensures ApplyQuery(t, key + "=" + value) == ApplyPair(t, key + "=" + value)
  {
    var pair := key + "=" + value;
    hide ApplyPair;
    FoundAt(pair, '&', |pair|);
  }

  lemma PlainRole(t: Target, r: Role)
    ensures ApplyQuery(t, "as" + "=" + RoleName(r)) == t.(role := Some(r))
  {
    OneOption(t, "as", RoleName(r));
    KeyFound("as", RoleName(r));
    var v := RoleName(r);
    assert Decode(v) == v by {
      assert forall i :: 0 <= i < |v| ==> v[i] != '%';
      DecodeKeeps(v);
    }
    hide Decode, ApplyQuery;
  }

  lemma PlainPeer(t: Target, v: string)
    requires '&' !in v
    ensures ApplyQuery(t, "peer" + "=" + v) == t.(peer := Some(Decode(v)))
  {
    OneOption(t, "peer", v);
    KeyFound("peer", v);
    hide Decode, ApplyQuery;
  }

  lemma PlainToken(t: Target, v: string)
    requires '&' !in v
    ensures ApplyQuery(t, "token" + "=" + v) == t.(token := Some(Decode(v)))
  {
    OneOption(t, "token", v);
    KeyFound("token", v);
    hide Decode, ApplyQuery;
  }

  /** A value with an ampersand comes back shorter, if at all. */
  lemma SplitValue(t: Target, key: string, v: string)
    requires key == "peer" || key == "token"
    requires '&' in v
    ensures var u := ApplyQuery(t, key + "=" + v); ShorterThan(if key == "peer" then u.peer else u.token, |v|)
  {
    var pair, cut := key + "=" + v, Find(v, '&');
    FirstIsInside(v, v, '&');
    var head := key + "=" + v[..cut];
    assert pair == head + "&" + v[cut + 1..];
    QueriesConcatenate(t, head, v[cut + 1..]);
    var u := ApplyQuery(t, head);
    if key == "peer" { PlainPeer(t, v[..cut]); } else { PlainToken(t, v[..cut]); }
    QueryShortens(u, v[cut + 1..], |v|);
  }

  // ---------------------------------------------------------------- the round trip

  /** What a caller can check before printing. */
  predicate WellFormed(t: Target) {
    && '/' !in t.signal && (t.signal == "" ==> t.scheme == Local)
    && t.service != "" && '?' !in t.service
    && (t.peer.Some? ==> Plain(t.peer.value))
    && (t.token.Some? ==> Plain(t.token.value))
  }

  function Bare(t: Target): Target {
    Target(t.scheme, t.signal, t.service, None, None, None)
  }

  lemma QueryComesBack(t: Target)
    ensures ApplyAll(Bare(t), QueryOf(t)) == t <==>
              (t.peer.Some? ==> Plain(t.peer.value)) && (t.token.Some? ==> Plain(t.token.value))
  {
    var t0 := Bare(t);
    var q0 := if t.role.Some? then AddOption("", "as", RoleName(t.role.value)) else "";
    var q1 := if t.peer.Some? then AddOption(q0, "peer", t.peer.value) else q0;
    var t1 := t0.(role := t.role);
    assert ApplyAll(t0, q0) == t1 by {
      if t.role.Some? {
        OptionApplies(t0, "", "as", RoleName(t.role.value));
        PlainRole(t0, t.role.value);
      }
      hide ApplyQuery, AddOption;
    }
    PeerComesBack(t0, q0, t);
    TokenComesBack(t0, q1, t);
    hide ApplyAll, AddOption, Plain, HasEscape;
  }

  lemma PeerComesBack(t0: Target, q0: string, t: Target)
    requires ApplyAll(t0, q0).peer == None
    ensures var before := ApplyAll(t0, q0);
            var after := ApplyAll(t0, if t.peer.Some? then AddOption(q0, "peer", t.peer.value) else q0);
            && (after.peer == t.peer <==> t.peer.None? || Plain(t.peer.value))
            && (after.peer == t.peer ==> after == before.(peer := t.peer))
  {
    if t.peer.Some? {
      var v := t.peer.value;
      OptionApplies(t0, q0, "peer", v);
      DecodeKeeps(v);
      if '&' in v { SplitValue(ApplyAll(t0, q0), "peer", v); } else { PlainPeer(ApplyAll(t0, q0), v); }
    }
    hide ApplyQuery, ApplyAll, AddOption, Decode, HasEscape;
  }

  lemma TokenComesBack(t0: Target, q1: string, t: Target)
    ensures var before := ApplyAll(t0, q1);
            var after := ApplyAll(t0, if t.token.Some? then AddOption(q1, "token", t.token.value) else q1);
            && (t.token.Some? ==> (after.token == t.token <==> Plain(t.token.value)))
            && (after.token == t.token ==> after == before.(token := t.token))
  {
    if t.token.Some? {
      var v := t.token.value;
      OptionApplies(t0, q1, "token", v);
      DecodeKeeps(v);
      if '&' in v { SplitValue(ApplyAll(t0, q1), "token", v); } else { PlainToken(ApplyAll(t0, q1), v); }
    }
    hide ApplyQuery, ApplyAll, AddOption, Decode, HasEscape;
  }

  lemma {:induction false} QueryKeepsRest(t: Target, q: string)
    ensures var u := ApplyQuery(t, q); u.scheme == t.scheme && u.signal == t.signal && u.service == t.service
    decreases |q|
  {
    hide ApplyPair, Find;
    var amp := Find(q, '&');
    PairKeepsRest(t, q[..amp]);
    if amp < |q| {
      QueryKeepsRest(ApplyPair(t, q[..amp]), q[amp + 1..]);
    } else {
      assert q[..amp] == q;
    }
  }

  lemma PairKeepsRest(t: Target, pair: string)
    ensures var u := ApplyPair(t, pair); u.scheme == t.scheme && u.signal == t.signal && u.service == t.service
  {
    hide Decode, Find;
  }

  lemma ParseKeepsParts(uri: string)
    requires Parse(uri).Ok?
    ensures Cut(uri).Ok? && Parse(uri).value.signal == Cut(uri).value.authority
         && Parse(uri).value.service == Cut(uri).value.service
  {
    hide Cut, ApplyQuery;
    var p := Cut(uri).value;
    QueryKeepsRest(Target(SchemeOf(p.scheme).value, p.authority, p.service, None, None, None), p.query);
  }

  /** In Rust, parsing undoes printing exactly on the well-formed targets. */
  lemma RoundTrip(t: Target)
    ensures Parse(Format(t)) == Ok(t) <==> WellFormed(t)
  {
    var name, q := Name(t.scheme), QueryOf(t);
    CutPrinted(name, t.signal, t.service, q);
    CutWhereJoined(name, t.signal, t.service, q);
    QueryComesBack(t);
    hide Printed, CutAfter, ApplyQuery, QueryOf, Plain, Name, SchemeOf, Cut;
    if '/' in t.signal || '?' in t.service {
      if Parse(Format(t)).Ok? { ParseKeepsParts(Format(t)); }
    } else {
      assert Cut(Format(t)) == Ok(Parts(name, t.signal, t.service, q));
    }
  }

  // ---------------------------------------------------------------- Go

  /** Empty role, peer or token: not set. */
  datatype GoTarget = GoTarget(scheme: string, signal: string, service: string,
                               role: string, peer: string, token: string)

  function Values(t: GoTarget): map<string, string> {
    var m0 := if t.role != "" then map["as" := t.role] else map[];
    var m1 := if t.peer != "" then m0["peer" := t.peer] else m0;
    if t.token != "" then m1["token" := t.token] else m1
  }

  /** url.Values.Encode and url.ParseQuery. */
  datatype Query = Query(encode: map<string, string> -> string, decode: string -> Option<map<string, string>>)

  ghost predicate UrlQuery(q: Query) {
    forall m :: q.decode(q.encode(m)) == Some(m) && (q.encode(m) == "" <==> m == map[])
  }

  function Get(m: map<string, string>, key: string): string {
    if key in m then m[key] else ""
  }

  function GoFormat(q: Query, t: GoTarget): string {
    Printed(t.scheme, t.signal, t.service, q.encode(Values(t)))
  }

  function GoParse(q: Query, uri: string): Result<GoTarget> {
    match Cut(uri)
    case Err(e) => Err(e)
    case Ok(p) =>
      if p.service == "" then Err(MissingService) else
      var values := if p.query == "" then Some(map[]) else q.decode(p.query);
      if values == None then Err(BadQuery)
      else if p.authority == "" && p.scheme != "local" then Err(EmptyAuthority)
      else Ok(GoTarget(p.scheme, p.authority, p.service,
                       Get(values.value, "as"), Get(values.value, "peer"), Get(values.value, "token")))
  }

  predicate GoWellFormed(t: GoTarget) {
    && FindSep(t.scheme) == |t.scheme|
    && '/' !in t.signal && (t.signal == "" ==> t.scheme == "local")
    && t.service != "" && '?' !in t.service
  }

  lemma ValuesAreRead(t: GoTarget)
    ensures Get(Values(t), "as") == t.role && Get(Values(t), "peer") == t.peer && Get(Values(t), "token") == t.token
  {
  }

  /** In Go, where the query is escaped, parsing undoes printing exactly if scheme, authority and service hold no
      separator of their own: an authority given as a full URL does not come back. */
  lemma GoRoundTrip(q: Query, t: GoTarget)
    requires UrlQuery(q)
    ensures GoParse(q, GoFormat(q, t)) == Ok(t) <==> GoWellFormed(t)
  {
    var query := q.encode(Values(t));
    var after := t.signal + "/" + t.service + if query == "" then "" else "?" + query;
    assert GoFormat(q, t) == PREFIX + (t.scheme + SEP + after);
    FirstSep(t.scheme, after);
    if FindSep(t.scheme) == |t.scheme| {
      CutSeparated(t.scheme, after);
      CutWhereJoined(t.scheme, t.signal, t.service, query);
      hide Cut, CutAfter, FindSep, GoFormat;
      ReadBack(q, t, GoFormat(q, t), CutAfter(t.scheme, after));
    } else {
      CutEarly(t.scheme, after);
      hide *;
      DifferentScheme(q, t, GoFormat(q, t));
    }
  }

  lemma DifferentScheme(q: Query, t: GoTarget, uri: string)
    requires Cut(uri).Ok? && Cut(uri).value.scheme != t.scheme
    ensures GoParse(q, uri) != Ok(t)
  {
    hide Cut;
  }

  lemma ReadBack(q: Query, t: GoTarget, uri: string, p: Parts)
    requires UrlQuery(q) && Cut(uri) == Ok(p) && p.scheme == t.scheme
    requires var query := q.encode(Values(t));
             && (('/' !in t.signal && '?' !in t.service) ==> p == Parts(t.scheme, t.signal, t.service, query))
             && (('/' in t.signal || '?' in t.service) ==> p.authority != t.signal || p.service != t.service)
    ensures GoParse(q, uri) == Ok(t) <==>
              '/' !in t.signal && (t.signal == "" ==> t.scheme == "local") && t.service != "" && '?' !in t.service
  {
    if '/' !in t.signal && '?' !in t.service {
      ReadBackWhole(q, t, uri);
      hide *;
    } else {
      OtherParts(q, t, uri);
      hide *;
    }
  }

  lemma OtherParts(q: Query, t: GoTarget, uri: string)
    requires Cut(uri).Ok? && (Cut(uri).value.authority != t.signal || Cut(uri).value.service != t.service)
    ensures GoParse(q, uri) != Ok(t)
  {
    hide Cut;
  }

  lemma ReadBackWhole(q: Query, t: GoTarget, uri: string)
    requires UrlQuery(q) && Cut(uri) == Ok(Parts(t.scheme, t.signal, t.service, q.encode(Values(t))))
    ensures GoParse(q, uri) == Ok(t) <==> (t.signal == "" ==> t.scheme == "local") && t.service != ""
  {
    ValuesAreRead(t);
    assert q.decode(q.encode(Values(t))) == Some(Values(t)) && (q.encode(Values(t)) == "" <==> Values(t) == map[]);
    hide Cut, Values, UrlQuery;
  }

  lemma CutEarly(scheme: string, after: string)
    requires FindSep(scheme) < |scheme|
    ensures Cut(PREFIX + (scheme + SEP + after)).Ok? && Cut(PREFIX + (scheme + SEP + after)).value.scheme != scheme
  {
    hide Cut, CutAfter, FindSep;
    var rest := scheme + SEP + after;
    FirstSep(scheme, after);
    CutAt(rest);
    CutKeepsScheme(rest[..FindSep(rest)], rest[FindSep(rest) + |SEP|..]);
  }

  lemma CutKeepsScheme(scheme: string, after: string)
    ensures CutAfter(scheme, after).scheme == scheme
  {
  }
}
