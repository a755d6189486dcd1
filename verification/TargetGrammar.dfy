/** Which target URIs are accepted, and what is read from them, as a grammar. */
module TargetGrammar {
  import opened Wire
  import opened Uris = Target

  /** prefix, scheme, separator, authority, then optionally slash and service, then optionally a question mark and the
      query. */
  function Joined(p: Parts, slash: bool, mark: bool): string {
    PREFIX + (p.scheme + SEP + After(p, slash, mark))
  }

  function After(p: Parts, slash: bool, mark: bool): string {
    p.authority + if slash then "/" + Path(p, mark) else ""
  }

  function Path(p: Parts, mark: bool): string {
    p.service + if mark then "?" + p.query else ""
  }

  predicate HasSep(s: string) {
    exists i :: 0 <= i <= |s| && SEP <= s[i..]
  }

  /** No part holds the character that ends it. */
  predicate Unambiguous(p: Parts) {
    !HasSep(p.scheme) && '/' !in p.authority && '?' !in p.service
  }

  predicate WrittenSo(uri: string, p: Parts, slash: bool, mark: bool) {
    && uri == Joined(p, slash, mark) && Unambiguous(p)
    && (!slash ==> p.service == "" && !mark) && (!mark ==> p.query == "")
  }

  predicate Reads(uri: string, p: Parts) {
    exists slash: bool, mark: bool :: WrittenSo(uri, p, slash, mark)
  }

  // ---------------------------------------------------------------- cutting

  lemma SepFound(s: string)
    ensures FindSep(s) < |s| <==> HasSep(s)
  {
    if FindSep(s) < |s| {
      assert SEP <= s[FindSep(s)..];
    } else if HasSep(s) {
      var i :| 0 <= i <= |s| && SEP <= s[i..];
      NoSepBefore(s, i);
    }
  }

  lemma CutPath(p: Parts, mark: bool)
    requires '?' !in p.service && (!mark ==> p.query == "")
    ensures var path := Path(p, mark);
            var at := Find(path, '?');
            path[..at] == p.service && (if at < |path| then path[at + 1..] else "") == p.query
  {
    var path := Path(p, mark);
    assert path[..|p.service|] == p.service;
    FoundAt(path, '?', |p.service|);
  }

  lemma FirstSlash(p: Parts, slash: bool, mark: bool)
    requires '/' !in p.authority
    ensures var after := After(p, slash, mark);
            && Find(after, '/') == |p.authority| && after[..|p.authority|] == p.authority
            && (slash ==> |p.authority| < |after| && after[|p.authority| + 1..] == Path(p, mark))
            && (!slash ==> after == p.authority)
  {
    hide Path;
    var after := After(p, slash, mark);
    assert after[..|p.authority|] == p.authority;
    FoundAt(after, '/', |p.authority|);
  }

  lemma CutRest(p: Parts, slash: bool, mark: bool)
    requires Unambiguous(p) && (!slash ==> p.service == "" && !mark) && (!mark ==> p.query == "")
    ensures CutAfter(p.scheme, After(p, slash, mark)) == p
  {
    FirstSlash(p, slash, mark);
    hide Find, HasSep, After, CutAfter;
    if slash {
      CutPath(p, mark);
      hide Path;
      CutAfterSlash(p.scheme, After(p, slash, mark));
    } else {
      CutNothing(p.scheme, p.authority);
    }
  }

  lemma CutNothing(scheme: string, after: string)
    requires Find(after, '/') == |after|
    ensures CutAfter(scheme, after) == Parts(scheme, after, "", "")
  {
  }

  lemma WrittenIsCut(uri: string, p: Parts, slash: bool, mark: bool)
    requires WrittenSo(uri, p, slash, mark)
    ensures Cut(uri) == Ok(p)
  {
    CutRest(p, slash, mark);
    SepFound(p.scheme);
    hide Cut, CutAfter, HasSep, FindSep, After;
    FirstSep(p.scheme, After(p, slash, mark));
    CutSeparated(p.scheme, After(p, slash, mark));
  }

  lemma SplitAt(s: string, i: nat)
    requires i < |s|
    ensures s == s[..i] + ([s[i]] + s[i + 1..])
  {
  }

  lemma PathIsWritten(p: Parts, path: string)
    requires var at := Find(path, '?'); p.service == path[..at] && p.query == if at < |path| then path[at + 1..] else ""
    ensures var mark := Find(path, '?') < |path|;
            path == Path(p, mark) && '?' !in p.service && (!mark ==> p.query == "")
  {
    var at := Find(path, '?');
    if at < |path| { SplitAt(path, at); }
    hide Find;
    assert at == |path| ==> path[..at] == path && p.service + "" == p.service;
  }

  predicate RestSo(p: Parts, after: string, slash: bool, mark: bool) {
    && after == After(p, slash, mark) && '/' !in p.authority && '?' !in p.service
    && (!slash ==> p.service == "" && !mark) && (!mark ==> p.query == "")
  }

  lemma RestIsWritten(p: Parts, after: string)
    requires p == CutAfter(p.scheme, after)
    ensures exists slash: bool, mark: bool :: RestSo(p, after, slash, mark)
  {
    var at := Find(after, '/');
    CutAfterSlash(p.scheme, after);
    if at < |after| {
      SplitAt(after, at);
      var path := after[at + 1..];
      PathIsWritten(p, path);
      hide CutAfter, Path;
      assert RestSo(p, after, true, Find(path, '?') < |path|);
    } else {
      CutNothing(p.scheme, after);
      hide CutAfter, Path, Find;
      assert after[..at] == after && after + "" == after;
      assert RestSo(p, after, false, false);
    }
  }

  lemma CutInParts(uri: string, p: Parts)
    requires Cut(uri) == Ok(p)
    ensures PREFIX <= uri
    ensures var rest := uri[|PREFIX|..];
            var sep := FindSep(rest);
            sep + |SEP| <= |rest| && p.scheme == rest[..sep] && p == CutAfter(p.scheme, rest[sep + |SEP|..])
  {
    hide Find, FindSep;
  }

  lemma SepSplits(rest: string, sep: nat)
    requires sep <= |rest| && SEP <= rest[sep..]
    ensures sep + |SEP| <= |rest| && rest == rest[..sep] + SEP + rest[sep + |SEP|..]
  {
    SepAt(rest, sep);
  }

  lemma Assembles(uri: string, p: Parts, after: string, slash: bool, mark: bool)
    requires uri == PREFIX + (p.scheme + SEP + after) && RestSo(p, after, slash, mark) && !HasSep(p.scheme)
    ensures Reads(uri, p)
  {
    hide HasSep, After;
    assert WrittenSo(uri, p, slash, mark);
  }

  lemma PrefixSplits(uri: string)
    requires PREFIX <= uri
    ensures uri == PREFIX + uri[|PREFIX|..]
  {
  }

  lemma CutIsWritten(uri: string, p: Parts)
    requires Cut(uri) == Ok(p)
    ensures Reads(uri, p)
  {
    CutInParts(uri, p);
    hide Cut, CutAfter, HasSep, After, Find, FindSep, RestSo, Reads;
    var rest := uri[|PREFIX|..];
    var sep := FindSep(rest);
    var after := rest[sep + |SEP|..];
    PrefixSplits(uri);
    SchemeHasNoSep(rest);
    SepSplits(rest, sep);
    RestIsWritten(p, after);
    var slash, mark :| RestSo(p, after, slash, mark);
    Assembles(uri, p, after, slash, mark);
  }

  lemma SepAt(s: string, i: nat)
    requires i <= |s|
    ensures SEP <= s[i..] <==> i + 3 <= |s| && s[i] == ':' && s[i + 1] == '/' && s[i + 2] == '/'
  {
  }

  lemma SchemeHasNoSep(rest: string)
    requires FindSep(rest) < |rest|
    ensures !HasSep(rest[..FindSep(rest)])
  {
    var sep := FindSep(rest);
    var scheme := rest[..sep];
    hide FindSep;
    if HasSep(scheme) {
      var i :| 0 <= i <= |scheme| && SEP <= scheme[i..];
      SepAt(scheme, i);
      SepAt(rest, i);
      NoSepBefore(rest, i);
    }
  }

  /** The cut of a URI is the one way to read it; there is none without the prefix or without a separator. */
  lemma CutByGrammar(uri: string, p: Parts)
    ensures Cut(uri) == Ok(p) <==> Reads(uri, p)
    ensures Cut(uri) == Err(MissingPrefix) <==> !(PREFIX <= uri)
    ensures Cut(uri) == Err(MissingSeparator) <==> PREFIX <= uri && !HasSep(uri[|PREFIX|..])
  {
    if Cut(uri) == Ok(p) { CutIsWritten(uri, p); }
    if Reads(uri, p) {
      var slash, mark :| WrittenSo(uri, p, slash, mark);
      WrittenIsCut(uri, p, slash, mark);
    }
    if PREFIX <= uri { SepFound(uri[|PREFIX|..]); }
    hide FindSep, CutAfter, WrittenSo, HasSep;
  }

  // ---------------------------------------------------------------- parsing

  predicate KnownScheme(name: string) {
    name == "local" || name == "connect" || name == "ws" || name == "relay"
  }

  /** Rust accepts a URI exactly if it reads as one of a known scheme with a service and, unless local, an authority;
      each way to miss that has its own error, the first in this order. What is accepted has those parts. */
  lemma ParseByGrammar(uri: string, p: Parts)
    requires Reads(uri, p)
    ensures Parse(uri) == Err(UnknownScheme(p.scheme)) <==> !KnownScheme(p.scheme)
    ensures Parse(uri) == Err(MissingService) <==> KnownScheme(p.scheme) && p.service == ""
    ensures Parse(uri) == Err(EmptyAuthority) <==>
              KnownScheme(p.scheme) && p.service != "" && p.authority == "" && p.scheme != "local"
    ensures Parse(uri).Ok? <==>
              KnownScheme(p.scheme) && p.service != "" && (p.authority != "" || p.scheme == "local")
    ensures Parse(uri).Ok? ==>
              var t := Parse(uri).value;
              && Name(t.scheme) == p.scheme && t.signal == p.authority && t.service == p.service
              && t.role == (if LastValue(p.query, "as").Some? then RoleRead(LastValue(p.query, "as").value) else None)
              && t.peer == LastValue(p.query, "peer") && t.token == LastValue(p.query, "token")
  {
    CutByGrammar(uri, p);
    hide Reads, Cut;
    var scheme := SchemeOf(p.scheme);
    if scheme.Some? { QueryReads(Target(scheme.value, p.authority, p.service, None, None, None), p.query); }
    assert LastValue("", "as") == LastValue("", "peer") == LastValue("", "token") == None;
    hide ApplyQuery, LastValue;
  }

  /** A URI that does not read at all is refused as the cut is. */
  lemma ParseRefuses(uri: string)
    ensures Parse(uri) == Err(MissingPrefix) <==> !(PREFIX <= uri)
    ensures Parse(uri) == Err(MissingSeparator) <==> PREFIX <= uri && !HasSep(uri[|PREFIX|..])
  {
    CutByGrammar(uri, Parts("", "", "", ""));
    hide Cut, HasSep, ApplyQuery, Reads;
  }

  /** Go knows no schemes, and looks at the query before the authority. */
  lemma GoParseByGrammar(q: Query, uri: string, p: Parts)
    requires Reads(uri, p)
    ensures GoParse(q, uri) == Err(MissingService) <==> p.service == ""
    ensures GoParse(q, uri) == Err(BadQuery) <==> p.service != "" && p.query != "" && q.decode(p.query) == None
    ensures GoParse(q, uri).Ok? <==>
              && p.service != "" && (p.query == "" || q.decode(p.query).Some?)
              && (p.authority != "" || p.scheme == "local")
    ensures GoParse(q, uri).Ok? ==>
              var t := GoParse(q, uri).value;
              t.scheme == p.scheme && t.signal == p.authority && t.service == p.service
  {
    CutByGrammar(uri, p);
    hide Reads, Cut;
  }

  // ---------------------------------------------------------------- the query

  function ValueIn(pair: string, key: string): Option<string> {
    var eq := Find(pair, '=');
    if eq < |pair| && pair[..eq] == key then Some(Decode(pair[eq + 1..])) else None
  }

  /** The decoded value of the last pair that has this key. */
  function LastValue(q: string, key: string): Option<string>
    decreases |q|
  {
    var amp := Find(q, '&');
    if amp == |q| then ValueIn(q, key) else
    var later := LastValue(q[amp + 1..], key);
    if later.Some? then later else ValueIn(q[..amp], key)
  }

  function RoleRead(value: string): Option<Role> {
    if value == "client" then Some(Client) else if value == "server" then Some(Server) else None
  }

  /** Of several pairs with the same key the last one counts; a role that is neither client nor server clears it. */
  lemma {:induction false} QueryReads(t: Target, q: string)
    ensures var u, role := ApplyQuery(t, q), LastValue(q, "as");
            var peer, token := LastValue(q, "peer"), LastValue(q, "token");
            && u.scheme == t.scheme && u.signal == t.signal && u.service == t.service
            && u.role == (if role.Some? then RoleRead(role.value) else t.role)
            && u.peer == (if peer.Some? then peer else t.peer)
            && u.token == (if token.Some? then token else t.token)
    decreases |q|
  {
    PairReads(t, if Find(q, '&') < |q| then q[..Find(q, '&')] else q);
    hide ApplyPair, ValueIn, RoleRead;
    var amp := Find(q, '&');
    if amp < |q| {
      QueryReads(ApplyPair(t, q[..amp]), q[amp + 1..]);
    }
  }

  lemma PairReads(t: Target, pair: string)
    ensures var u := ApplyPair(t, pair);
            var role, peer, token := ValueIn(pair, "as"), ValueIn(pair, "peer"), ValueIn(pair, "token");
            && u.scheme == t.scheme && u.signal == t.signal && u.service == t.service
            && u.role == (if role.Some? then RoleRead(role.value) else t.role)
            && u.peer == (if peer.Some? then peer else t.peer)
            && u.token == (if token.Some? then token else t.token)
  {
    hide Decode, Find;
  }
}
