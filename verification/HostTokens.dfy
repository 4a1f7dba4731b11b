/** Finds in a text what may be a host, and how sure that is. */
module HostTokens {
  import opened Base
  import opened Text

  /** A possible host; strong where its surroundings leave no doubt that it is one. */
  datatype Token = Token(host: string, strong: bool)

  // ---------- Characters and pieces ----------

  predicate IsSeparator(c: char) {
    c in " \t\n\r,;\"'()[]{}<>"
  }

  predicate EndsAuthority(c: char) {
    c == '/' || c == '?' || c == '#'
  }

  predicate IsHostChar(c: char) {
    'a' <= c <= 'z' || '0' <= c <= '9' || c == '-' || c == '.'
  }

  predicate IsHostName(s: string) {
    forall c :: c in s ==> IsHostChar(c)
  }

  function TrimSuffix(s: string, suffix: string): string {
    if |suffix| <= |s| && s[|s| - |suffix|..] == suffix then s[..|s| - |suffix|] else s
  }

  /** The index of the first character that ends an authority, or |s|. */
  function AuthorityEnd(s: string): (i: nat)
    ensures i <= |s| && (i < |s| ==> EndsAuthority(s[i]))
    ensures forall k :: 0 <= k < i ==> !EndsAuthority(s[k])
  {
    if s == "" || EndsAuthority(s[0]) then 0 else 1 + AuthorityEnd(s[1..])
  }

  /** Where the part after the last `c` of s[..n] starts; 0 when there is none. */
  function AfterIndex(s: string, c: char, n: nat): (i: nat)
    requires n <= |s|
    ensures i <= n && (i > 0 ==> s[i - 1] == c) && forall k :: i <= k < n ==> s[k] != c
  {
    if n == 0 || s[n - 1] == c then n else AfterIndex(s, c, n - 1)
  }

  /** The part after the last `c`; all of s when there is none. */
  function AfterLast(s: string, c: char): string {
    s[AfterIndex(s, c, |s|)..]
  }

  predicate HasAt(s: string, pattern: string, i: nat) {
    i + |pattern| <= |s| && s[i..i + |pattern|] == pattern
  }

  /** strings.Index: where the pattern occurs first. */
  function Find(s: string, pattern: string): (at: Option<nat>)
    ensures at.Some? ==> HasAt(s, pattern, at.value) && forall k :: 0 <= k < at.value ==> !HasAt(s, pattern, k)
    ensures at.None? ==> forall k :: 0 <= k <= |s| ==> !HasAt(s, pattern, k)
  {
    FindFrom(s, pattern, 0)
  }

  function FindFrom(s: string, pattern: string, from: nat): (at: Option<nat>)
    requires from <= |s|
    ensures at.Some? ==> from <= at.value && HasAt(s, pattern, at.value)
    ensures at.Some? ==> forall k :: from <= k < at.value ==> !HasAt(s, pattern, k)
    ensures at.None? ==> forall k :: from <= k <= |s| ==> !HasAt(s, pattern, k)
    decreases |s| - from
  {
    if HasAt(s, pattern, from) then Some(from)
    else if from == |s| then None
    else FindFrom(s, pattern, from + 1)
  }

  /** How far the first field reaches. */
  function FieldEnd(s: string): (i: nat)
    ensures i <= |s| && (i < |s| ==> IsSeparator(s[i]))
    ensures forall k :: 0 <= k < i ==> !IsSeparator(s[k])
  {
    if s == "" || IsSeparator(s[0]) then 0 else 1 + FieldEnd(s[1..])
  }

  /** strings.FieldsFunc at the separators: no field is empty. */
  function Fields(s: string): seq<string>
    decreases |s|
  {
    if s == "" then []
    else if IsSeparator(s[0]) then Fields(s[1..])
    else [s[..FieldEnd(s)]] + Fields(s[FieldEnd(s)..])
  }

  // ---------- Hosts ----------

  /** The host of the authority that a text starts with. */
  function HostOf(s: string, strong: bool): Option<Token> {
    HostAndPort(AfterLast(s[..AuthorityEnd(s)], '@'), strong)
  }

  /** What is left of an authority once its user is off. With a port there is no doubt left. */
  function HostAndPort(s: string, strong: bool): Option<Token> {
    var colon := IndexOf(s, ':');
    if colon == |s| then NamedHost(s, strong)
    else if AllDigits(s[colon + 1..]) then NamedHost(s[..colon], true)
    else None
  }

  function NamedHost(host: string, strong: bool): Option<Token> {
    var name := TrimSuffix(Lower(host), ".");
    if name == "" || !IsHostName(name) then None else Some(Token(name, strong))
  }

  function HostToken(field: string, hostish: bool): Option<Token> {
    match Find(field, "://")
    case Some(i) => HostOf(field[i + 3..], true)
    case None => if '@' in field then HostOf(AfterLast(field, '@'), true) else HostOf(field, hostish)
  }

  /** What stands after an assignment; an equals sign behind a slash assigns nothing. */
  function Addressed(field: string): string {
    var i := IndexOf(field, '=');
    if i < |field| && '/' !in field[..i] then field[i + 1..] else field
  }

  /** The tokens of the fields, in order. */
  function TokensOf(fields: seq<string>, hostish: bool): seq<Token> {
    if fields == [] then []
    else
      TokensOf(fields[..|fields| - 1], hostish) +
      (match HostToken(Addressed(fields[|fields| - 1]), hostish)
       case Some(t) => [t]
       case None => [])
  }

  function Tokens(value: string, hostish: bool): seq<Token> {
    TokensOf(Fields(value), hostish)
  }

  method HostTokens(value: string, hostish: bool) returns (out: seq<Token>)
    ensures out == Tokens(value, hostish)
  {
    hide Fields;
    hide HostToken;
    out := [];
    var fields := Fields(value);
    for n := 0 to |fields|
      invariant out == TokensOf(fields[..n], hostish)
    {
      assert fields[..n + 1][..n] == fields[..n];
      var f := fields[n];
      var i := IndexOf(f, '=');
      if i < |f| && '/' !in f[..i] {
        f := f[i + 1..];
      }
      assert f == Addressed(fields[n]);
      var t := HostToken(f, hostish);
      out := out + if t.Some? then [t.value] else [];
    }
    assert fields[..|fields|] == fields;
  }

  // ---------- Authorities, in the shape of section 3.2 of RFC 3986 ----------

  /** authority = [ userinfo "@" ] host [ ":" port ] */
  datatype Authority = Authority(user: Option<string>, host: string, port: Option<string>)

  function Written(a: Authority): string {
    (if a.user.Some? then a.user.value + "@" else "") + (a.host + PortPart(a.port))
  }

  /** Nothing in the parts would end them early; a port has digits. */
  predicate WellFormed(a: Authority) {
    && (a.user.Some? ==> forall c :: c in a.user.value ==> !EndsAuthority(c))
    && (forall c :: c in a.host ==> !EndsAuthority(c) && c != '@' && c != ':')
    && (a.port.Some? ==> AllDigits(a.port.value))
  }

  /** What may follow an authority: nothing, or a path, query or fragment. */
  predicate IsTail(tail: string) {
    tail == "" || EndsAuthority(tail[0])
  }

  lemma AuthorityEndsAt(a: string, tail: string)
    requires (forall c :: c in a ==> !EndsAuthority(c)) && IsTail(tail)
    ensures AuthorityEnd(a + tail) == |a|
  {
    var s := a + tail;
    assert forall k :: 0 <= k < |a| ==> s[k] == a[k];
    assert tail != "" ==> s[|a|] == tail[0];
  }

  lemma AfterLastIs(s: string, c: char, t: string)
    requires c !in t
    ensures AfterLast(s + [c] + t, c) == t
  {
    var whole := s + [c] + t;
    assert whole[|s|] == c;
    assert forall k :: |s| < k < |whole| ==> whole[k] == t[k - |s| - 1] && t[k - |s| - 1] in t;
    assert AfterIndex(whole, c, |whole|) == |s| + 1;
  }

  lemma AfterLastNone(s: string, c: char)
    requires c !in s
    ensures AfterLast(s, c) == s
  {
    assert AfterIndex(s, c, |s|) == 0;
  }

  function PortPart(port: Option<string>): string {
    if port.Some? then ":" + port.value else ""
  }

  lemma HostThenPort(host: string, port: Option<string>, strong: bool)
    requires ':' !in host && (port.Some? ==> AllDigits(port.value))
    ensures HostAndPort(host + PortPart(port), strong) == NamedHost(host, strong || port.Some?)
  {
    var s := host + PortPart(port);
    assert forall k :: 0 <= k < |host| ==> s[k] == host[k];
    if port.Some? {
      assert s[|host|] == ':';
      assert IndexOf(s, ':') == |host|;
      assert s[..|host|] == host && s[|host| + 1..] == port.value;
    } else {
      assert s == host;
      assert IndexOf(s, ':') == |host|;
    }
  }

  lemma WrittenParts(a: Authority)
    requires WellFormed(a)
    ensures forall c :: c in Written(a) ==> !EndsAuthority(c)
    ensures AfterLast(Written(a), '@') == a.host + PortPart(a.port)
  {
    var rest := a.host + PortPart(a.port);
    assert forall c :: c in PortPart(a.port) ==> c == ':' || IsDigit(c);
    assert '@' !in rest;
    if a.user.Some? {
      assert Written(a) == a.user.value + ['@'] + rest;
      AfterLastIs(a.user.value, '@', rest);
    } else {
      assert Written(a) == rest;
      AfterLastNone(rest, '@');
    }
  }

  /** An authority followed by any tail is read as its host, strong when it has a port. */
  lemma AuthorityIsRead(a: Authority, tail: string, strong: bool)
    requires WellFormed(a) && IsTail(tail)
    ensures HostOf(Written(a) + tail, strong) == NamedHost(a.host, strong || a.port.Some?)
  {
    WrittenParts(a);
    AuthorityEndsAt(Written(a), tail);
    assert (Written(a) + tail)[..|Written(a)|] == Written(a);
    HostThenPort(a.host, a.port, strong);
  }

  /** [user@]host[:port], taken apart. */
  function Parts(authority: string): Authority {
    var at := AfterIndex(authority, '@', |authority|);
    var rest := authority[at..];
    var colon := IndexOf(rest, ':');
    Authority(if at > 0 then Some(authority[..at - 1]) else None, rest[..colon],
              if colon < |rest| then Some(rest[colon + 1..]) else None)
  }

  lemma PartsMakeIt(authority: string)
    ensures Written(Parts(authority)) == authority
  {
    var at := AfterIndex(authority, '@', |authority|);
    var rest := authority[at..];
    var colon := IndexOf(rest, ':');
    var a := Parts(authority);
    assert a.host + PortPart(a.port) == rest by {
      if colon < |rest| {
        assert rest == rest[..colon] + [rest[colon]] + rest[colon + 1..];
      }
    }
    if at > 0 {
      assert authority == authority[..at - 1] + [authority[at - 1]] + rest;
    }
  }

  lemma PartsAreWellFormed(authority: string)
    requires forall c :: c in authority ==> !EndsAuthority(c)
    requires HostAndPort(AfterLast(authority, '@'), false).Some?
    ensures WellFormed(Parts(authority))
  {
    var at := AfterIndex(authority, '@', |authority|);
    var host := Parts(authority).host;
    forall k | 0 <= k < |host|
      ensures host[k] in authority && host[k] != '@' && host[k] != ':'
    {
      assert host[k] == authority[at..][k] == authority[at + k];
    }
    if at > 0 {
      assert forall c :: c in authority[..at - 1] ==> c in authority;
    }
  }

  lemma StrongOrNot(s: string)
    ensures HostAndPort(s, true).Some? <==> HostAndPort(s, false).Some?
  {
  }

  lemma SplitsAtEnd(s: string)
    ensures var end := AuthorityEnd(s);
            s == s[..end] + s[end..] && IsTail(s[end..]) && forall c :: c in s[..end] ==> !EndsAuthority(c)
  {
    var end := AuthorityEnd(s);
    assert forall k :: 0 <= k < end ==> s[..end][k] == s[k];
  }

  /** A host that is read stands in a well-formed authority at the start of the text. */
  lemma ReadHostHasAuthority(s: string, strong: bool)
    requires HostOf(s, strong).Some?
    ensures var end := AuthorityEnd(s); StartsWith(s, Parts(s[..end]), s[end..])
  {
    var authority := s[..AuthorityEnd(s)];
    SplitsAtEnd(s);
    StrongOrNot(AfterLast(authority, '@'));
    PartsAreWellFormed(authority);
    PartsMakeIt(authority);
  }

  /** The text starts with this authority, followed by this tail. */
  ghost predicate StartsWith(s: string, a: Authority, tail: string) {
    WellFormed(a) && IsTail(tail) && s == Written(a) + tail
  }

  /**
   * A text is read as a host exactly when it starts with a well-formed authority, ended by a
   * path, a query, a fragment or the end, whose host is a name; and then as that host.
   */
  lemma ReadsExactlyAuthorities(s: string, strong: bool, t: Token)
    ensures HostOf(s, strong) == Some(t) <==>
            exists a, tail :: StartsWith(s, a, tail) && NamedHost(a.host, strong || a.port.Some?) == Some(t)
  {
    forall a, tail | StartsWith(s, a, tail)
      ensures HostOf(s, strong) == NamedHost(a.host, strong || a.port.Some?)
    {
      AuthorityIsRead(a, tail, strong);
    }
    if HostOf(s, strong).Some? {
      ReadHostHasAuthority(s, strong);
    }
  }

  lemma SchemeEnds(scheme: string, rest: string)
    requires ':' !in scheme
    ensures Find(scheme + "://" + rest, "://") == Some(|scheme|)
  {
    var f := scheme + "://" + rest;
    var i := |scheme|;
    assert f[i..i + 3] == "://";
    assert HasAt(f, "://", i);
    forall k | 0 <= k < i
      ensures !HasAt(f, "://", k)
    {
      assert f[k] == scheme[k] && scheme[k] in scheme;
      assert k + 3 <= |f| ==> f[k..k + 3][0] == f[k];
    }
  }

  /** A URL's host is found whatever its scheme, user, port, path, query and fragment are. */
  lemma UrlHostIsFound(scheme: string, a: Authority, tail: string, hostish: bool)
    requires WellFormed(a) && IsTail(tail) && ':' !in scheme
    ensures HostToken(scheme + "://" + (Written(a) + tail), hostish) == NamedHost(a.host, true)
  {
    var rest := Written(a) + tail;
    SchemeEnds(scheme, rest);
    assert (scheme + "://" + rest)[|scheme| + 3..] == rest;
    AuthorityIsRead(a, tail, true);
  }

  // ---------- Authorities in fields without "://" ----------

  lemma AfterLastOfTail(s: string, tail: string, c: char)
    requires c in tail
    ensures AfterLast(s + tail, c) == AfterLast(tail, c)
  {
    var at := AfterIndex(tail, c, |tail|);
    var k :| 0 <= k < |tail| && tail[k] == c;
    assert k < at;
    var whole := s + tail;
    assert whole[|s| + at - 1] == c;
    assert whole[|s| + at..] == tail[at..];
    assert forall k :: at <= k < |tail| ==> whole[|s| + k] == tail[k];
    assert AfterIndex(whole, c, |whole|) == |s| + at;
  }

  lemma TailKeepsOff(a: Authority, tail: string)
    requires WellFormed(a) && IsTail(tail) && '@' !in tail && a.user.Some?
    ensures AfterLast(Written(a) + tail, '@') == a.host + PortPart(a.port) + tail
  {
    var rest := a.host + PortPart(a.port) + tail;
    assert forall c :: c in PortPart(a.port) ==> c == ':' || IsDigit(c);
    assert Written(a) + tail == a.user.value + ['@'] + rest;
    AfterLastIs(a.user.value, '@', rest);
  }

  /**
   * What a field that starts with an authority is read as. Without a scheme the text is cut at
   * its last '@', wherever that is: one in a path, a query or a fragment hides the authority,
   * and what follows it is read instead.
   */
  lemma FieldIsRead(a: Authority, tail: string, hostish: bool)
    requires WellFormed(a) && IsTail(tail)
    ensures var field := Written(a) + tail;
      HostToken(field, hostish) ==
      match Find(field, "://")
      case Some(i) => HostOf(field[i + 3..], true)
      case None =>
        if '@' in tail then HostOf(AfterLast(tail, '@'), true)
        else NamedHost(a.host, hostish || a.user.Some? || a.port.Some?)
  {
    var field := Written(a) + tail;
    if Find(field, "://").Some? {
      return;
    }
    if '@' in tail {
      AfterLastOfTail(Written(a), tail, '@');
      assert '@' in field;
    } else if a.user.Some? {
      TailKeepsOff(a, tail);
      assert (Written(a) + tail)[|a.user.value|] == '@';
      var bare := Authority(None, a.host, a.port);
      assert Written(bare) + tail == a.host + PortPart(a.port) + tail;
      AuthorityIsRead(bare, tail, true);
    } else {
      NoAtWithoutUser(a, tail);
      AuthorityIsRead(a, tail, hostish);
    }
  }

  lemma NoAtWithoutUser(a: Authority, tail: string)
    requires WellFormed(a) && '@' !in tail && a.user.None?
    ensures '@' !in Written(a) + tail
  {
    assert forall c :: c in PortPart(a.port) ==> c == ':' || IsDigit(c);
    assert Written(a) == a.host + PortPart(a.port);
  }

  /** An '@' in a path takes the place of the host that stands before it. */
  lemma AtInPathHidesHost()
    ensures HostToken("a/b@c", true) == Some(Token("c", true))
  {
    var a := Authority(None, "a", None);
    NoScheme("a/b@c");
    AfterLastIs("/b", '@', "c");
    assert "/b@c" == "/b" + ['@'] + "c";
    assert "/b@c"[2] == '@';
    assert Written(a) + "/b@c" == "a/b@c";
    ReadsLetter();
    FieldIsRead(a, "/b@c", true);
    hide HostToken;
    hide HostOf;
    hide AfterLast;
    hide Find;
  }

  /** So an image pinned by its digest names no host, whatever registry it starts with. */
  lemma DigestHidesRegistry(registry: Authority, path: string, algorithm: string, hex: string, hostish: bool)
    requires WellFormed(registry) && IsPlain(algorithm) && IsPlain(hex) && !AllDigits(hex)
    requires Find(Written(registry) + ("/" + path + "@" + (algorithm + ":" + hex)), "://").None?
    ensures HostToken(Written(registry) + ("/" + path + "@" + (algorithm + ":" + hex)), hostish) == None
  {
    hide HostToken;
    hide HostOf;
    hide AfterLast;
    hide Find;
    hide Written;
    hide WellFormed;
    hide AllDigits;
    var digest := algorithm + ":" + hex;
    assert '@' !in digest;
    BadPort(algorithm, hex);
    hide IsPlain;
    AfterAt("/" + path, digest);
    FieldIsRead(registry, "/" + path + "@" + digest, hostish);
  }

  lemma AfterAt(s: string, t: string)
    requires '@' !in t
    ensures '@' in s + "@" + t && AfterLast(s + "@" + t, '@') == t
  {
    assert (s + "@" + t)[|s|] == '@';
    AfterLastIs(s, '@', t);
  }

  lemma NoScheme(s: string)
    requires forall k :: 0 <= k && k + 3 <= |s| ==> !(s[k] == ':' && s[k + 1] == '/')
    ensures Find(s, "://").None?
  {
    forall k | 0 <= k && k + 3 <= |s|
      ensures !HasAt(s, "://", k)
    {
      assert s[k..k + 3][0] == s[k] && s[k..k + 3][1] == s[k + 1];
    }
  }

  /** Nothing in it ends an authority, a user or a host. */
  predicate IsPlain(s: string) {
    forall c :: c in s ==> !EndsAuthority(c) && c != '@' && c != ':'
  }

  lemma JustHostAndPort(s: string, strong: bool)
    requires forall c :: c in s ==> !EndsAuthority(c) && c != '@'
    ensures HostOf(s, strong) == HostAndPort(s, strong)
  {
    AuthorityEndsAt(s, "");
    assert s + "" == s && s[..|s|] == s;
    AfterLastNone(s, '@');
    hide HostAndPort;
  }

  lemma ReadsLetter()
    ensures HostOf("c", true) == Some(Token("c", true))
  {
    JustHostAndPort("c", true);
    hide HostOf;
    assert IndexOf("c", ':') == 1;
    LowerIsSame("c");
    assert TrimSuffix("c", ".") == "c";
  }

  /** What stands after a colon must be digits. */
  lemma BadPort(host: string, port: string)
    requires IsPlain(host) && IsPlain(port) && !AllDigits(port)
    ensures HostOf(host + ":" + port, true) == None
  {
    var s := host + ":" + port;
    assert forall c :: c in s ==> c in host || c in port || c == ':';
    JustHostAndPort(s, true);
    hide HostOf;
    assert forall k :: 0 <= k < |host| ==> s[k] == host[k] && host[k] in host;
    assert s[|host|] == ':' && s[|host| + 1..] == port;
    assert IndexOf(s, ':') == |host|;
  }

  /** An empty port, which RFC 3986 allows, is none: no host is read. */
  lemma EmptyPortHidesHost(host: string)
    requires IsPlain(host)
    ensures HostToken(host + ":", true) == None
  {
    var field := host + ":";
    assert forall k :: 0 <= k < |host| ==> field[k] == host[k] && host[k] in host;
    NoScheme(field);
    assert forall c :: c in field ==> c in host || c == ':';
    assert field + "" == field;
    BadPort(host, "");
    hide HostOf;
    hide Find;
  }

  /** Such as this one. */
  lemma EmptyPortOfDb()
    ensures HostToken("db:", true) == None
  {
    assert "db" + ":" == "db:";
    EmptyPortHidesHost("db");
    hide HostToken;
  }
}
