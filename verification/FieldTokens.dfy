/** Which tokens a text has: its fields, what an assignment in one leaves, and the host that is read there. */
module FieldTokens {
  import opened Base
  import opened HostTokens
  import opened Text

  // ---------- Fields ----------

  /** White space, commas, semicolons, quotes and brackets stand between fields. */
  ghost predicate Separates(c: char) {
    || c == ' ' || c == '\t' || c == '\n' || c == '\r' || c == ',' || c == ';' || c == '"' || c == '\''
    || c == '(' || c == ')' || c == '[' || c == ']' || c == '{' || c == '}' || c == '<' || c == '>'
  }

  /** A path, a query and a fragment end an authority; small letters, digits, dashes and dots make a host's name. */
  lemma CharactersAre(c: char)
    ensures IsSeparator(c) <==> Separates(c)
    ensures EndsAuthority(c) <==> c == '/' || c == '?' || c == '#'
    ensures IsHostChar(c) <==> 'a' <= c <= 'z' || '0' <= c <= '9' || c == '-' || c == '.'
  {
  }

  /** A text without separators. */
  ghost predicate IsField(s: string) {
    s != "" && forall c :: c in s ==> !Separates(c)
  }

  lemma OneField(f: string)
    requires IsField(f)
    ensures Fields(f) == [f]
  {
    forall c | c in f
      ensures !IsSeparator(c)
    {
      CharactersAre(c);
    }
    hide IsSeparator;
    assert f[0] in f;
    assert FieldEnd(f) == |f|;
    assert f[..|f|] == f && f[|f|..] == "";
  }

  lemma FieldEndStays(a: string, sep: char, b: string)
    requires IsSeparator(sep) && a != ""
    ensures FieldEnd(a + [sep] + b) == FieldEnd(a)
  {
    hide IsSeparator;
    var s := a + [sep] + b;
    assert forall k :: 0 <= k < |a| ==> s[k] == a[k];
    assert s[|a|] == sep;
  }

  lemma FieldsFrom(s: string)
    ensures Fields(s) ==
            if s == "" then [] else if IsSeparator(s[0]) then Fields(s[1..])
            else [s[..FieldEnd(s)]] + Fields(s[FieldEnd(s)..])
  {
    hide IsSeparator;
  }

  lemma CutInFront(a: string, sep: char, b: string, end: nat)
    requires end <= |a|
    ensures var s := a + [sep] + b; s[..end] == a[..end] && s[end..] == a[end..] + [sep] + b
    ensures a != "" ==> (a + [sep] + b)[0] == a[0]
  {
  }

  lemma {:induction false} FieldsSplit(a: string, sep: char, b: string)
    requires IsSeparator(sep)
    ensures Fields(a + [sep] + b) == Fields(a) + Fields(b)
    decreases |a|
  {
    var s := a + [sep] + b;
    FieldsFrom(s);
    FieldsFrom(a);
    hide Fields;
    if a == "" {
      assert s[0] == sep && s[1..] == b;
    } else if IsSeparator(a[0]) {
      assert s[1..] == a[1..] + [sep] + b;
      FieldsSplit(a[1..], sep, b);
    } else {
      FieldEndStays(a, sep, b);
      var end := FieldEnd(a);
      assert end > 0;
      hide IsSeparator;
      hide FieldEnd;
      CutInFront(a, sep, b, end);
      FieldsSplit(a[end..], sep, b);
    }
  }

  lemma {:induction false} TokensOfBoth(a: seq<string>, b: seq<string>, hostish: bool)
    ensures TokensOf(a + b, hostish) == TokensOf(a, hostish) + TokensOf(b, hostish)
  {
    hide HostToken;
    hide Addressed;
    if b == [] {
      assert a + b == a;
    } else {
      var n := |b| - 1;
      TokensOfBoth(a, b[..n], hostish);
      assert (a + b)[..|a + b| - 1] == a + b[..n];
    }
  }

  /** A separator cuts a text in two, whose tokens follow one another. */
  lemma TokensSplit(a: string, sep: char, b: string, hostish: bool)
    requires Separates(sep)
    ensures Tokens(a + [sep] + b, hostish) == Tokens(a, hostish) + Tokens(b, hostish)
    ensures Tokens("", hostish) == []
  {
    CharactersAre(sep);
    FieldsSplit(a, sep, b);
    TokensOfBoth(Fields(a), Fields(b), hostish);
    hide Fields;
    assert Fields("") == [] by { NoFields(); }
  }

  lemma NoFields()
    ensures Fields("") == []
  {
  }

  // ---------- One field ----------

  function OneOrNone(t: Option<Token>): seq<Token> {
    if t.Some? then [t.value] else []
  }

  /** A flag or a variable name: nothing in it is a slash or an equals sign, and it is no separator. */
  ghost predicate IsKey(key: string) {
    forall c :: c in key ==> c != '=' && c != '/' && !Separates(c)
  }

  /** The equals sign of the field, if it has one, stands behind a slash. */
  ghost predicate AssignsNothing(f: string) {
    '=' !in f || exists i :: 0 <= i < |f| && f[i] == '/' && '=' !in f[..i]
  }

  lemma TokensOfField(f: string, hostish: bool)
    requires IsField(f)
    ensures Tokens(f, hostish) == OneOrNone(HostToken(Addressed(f), hostish))
  {
    OneField(f);
    hide Fields;
    hide HostToken;
    hide Addressed;
    var fields := [f];
    assert fields[..|fields| - 1] == [];
    assert TokensOf([], hostish) == [];
    assert TokensOf(fields, hostish) == [] + OneOrNone(HostToken(Addressed(f), hostish));
  }

  lemma ValueIsAddressed(key: string, value: string)
    requires IsKey(key)
    ensures Addressed(key + "=" + value) == value
  {
    var f := key + "=" + value;
    assert forall k :: 0 <= k < |key| ==> f[k] == key[k] && key[k] in key;
    assert f[|key|] == '=';
    assert IndexOf(f, '=') == |key| && f[..|key|] == key && f[|key| + 1..] == value;
  }

  lemma InFront(f: string, k: nat, i: nat)
    requires k < i <= |f|
    ensures f[k] in f[..i]
  {
    assert f[..i][k] == f[k];
  }

  lemma WholeIsAddressed(f: string)
    requires AssignsNothing(f)
    ensures Addressed(f) == f
  {
    var at := IndexOf(f, '=');
    if at < |f| {
      InFront(f, at, |f|);
      assert f[..|f|] == f;
      var i :| 0 <= i < |f| && f[i] == '/' && '=' !in f[..i];
      if at < i {
        InFront(f, at, i);
      } else {
        InFront(f, i, at);
      }
    }
  }

  /** Of key=value, the value is read. */
  lemma ValueIsRead(key: string, value: string, hostish: bool)
    requires IsKey(key) && (forall c :: c in value ==> !Separates(c))
    ensures Tokens(key + "=" + value, hostish) == OneOrNone(HostToken(value, hostish))
  {
    var f := key + "=" + value;
    assert IsField(f) by {
      assert f[|key|] == '=';
      assert forall c :: c in f ==> c in key || c == '=' || c in value;
    }
    ValueIsAddressed(key, value);
    TokensOfField(f, hostish);
    hide HostToken;
    hide Tokens;
    hide Addressed;
  }

  /** A field that assigns nothing is read from its start. */
  lemma WholeIsRead(f: string, hostish: bool)
    requires IsField(f) && AssignsNothing(f)
    ensures Tokens(f, hostish) == OneOrNone(HostToken(f, hostish))
  {
    WholeIsAddressed(f);
    TokensOfField(f, hostish);
    hide HostToken;
    hide Tokens;
    hide Addressed;
  }

  // ---------- Hosts in fields ----------

  ghost predicate IsHostLetter(c: char) {
    'a' <= c <= 'z' || '0' <= c <= '9' || c == '-' || c == '.'
  }

  lemma DotComesOff(name: string)
    requires name != ""
    ensures TrimSuffix(name, ".") == if name[|name| - 1] == '.' then name[..|name| - 1] else name
  {
    assert name[|name| - 1..] == [name[|name| - 1]];
  }

  lemma HostCharsAre(name: string)
    ensures IsHostName(name) <==> forall c :: c in name ==> IsHostLetter(c)
  {
  }

  lemma LastChar(name: string)
    requires name != ""
    ensures forall c :: c in name <==> c in name[..|name| - 1] || c == name[|name| - 1]
  {
    assert name == name[..|name| - 1] + [name[|name| - 1]];
  }

  /** A host is read in small letters and without its last dot, if it is made of letters, digits, dashes and dots. */
  lemma NameIsRead(host: string, strong: bool)
    ensures var name := Lower(host);
      NamedHost(host, strong) ==
      if name == "" || name == "." || exists c :: c in name && !IsHostLetter(c) then None
      else Some(Token(if name[|name| - 1] == '.' then name[..|name| - 1] else name, strong))
  {
    var name := Lower(host);
    hide Lower;
    if name != "" {
      DotComesOff(name);
      LastChar(name);
      HostCharsAre(TrimSuffix(name, "."));
    }
    hide TrimSuffix;
    hide IsHostName;
  }

  /** Of a name in small letters, digits and dashes, the token is the name. */
  lemma PlainNameIsRead(name: string, strong: bool)
    requires name != "" && forall c :: c in name ==> IsHostLetter(c) && c != '.'
    ensures NamedHost(name, strong) == Some(Token(name, strong))
  {
    LowerIsSame(name);
    NameIsRead(name, strong);
    assert name[|name| - 1] in name;
    assert name != "." by {
      assert name[0] in name;
    }
    hide NamedHost;
    hide Lower;
  }

  /**
   * Of key=[user@]host[:port][tail] the host is read, strong where a user, a port or the text's
   * place says that it is one.
   */
  lemma AssignedHostIsRead(key: string, a: Authority, tail: string, hostish: bool)
    requires IsKey(key) && WellFormed(a) && IsTail(tail) && '@' !in tail
    requires forall c :: c in Written(a) + tail ==> !Separates(c)
    requires Find(Written(a) + tail, "://").None?
    ensures Tokens(key + "=" + (Written(a) + tail), hostish) ==
            OneOrNone(NamedHost(a.host, hostish || a.user.Some? || a.port.Some?))
  {
    ValueIsRead(key, Written(a) + tail, hostish);
    FieldIsRead(a, tail, hostish);
    hide Tokens;
    hide HostToken;
    hide NamedHost;
    hide Find;
    hide Written;
  }

  /** The same without a key, of a field that assigns nothing. */
  lemma HostIsRead(a: Authority, tail: string, hostish: bool)
    requires WellFormed(a) && IsTail(tail) && '@' !in tail
    requires IsField(Written(a) + tail) && AssignsNothing(Written(a) + tail)
    requires Find(Written(a) + tail, "://").None?
    ensures Tokens(Written(a) + tail, hostish) ==
            OneOrNone(NamedHost(a.host, hostish || a.user.Some? || a.port.Some?))
  {
    WholeIsRead(Written(a) + tail, hostish);
    FieldIsRead(a, tail, hostish);
    hide Tokens;
    hide HostToken;
    hide NamedHost;
    hide Find;
    hide Written;
  }

  /** And of key=scheme://[user@]host[:port][tail]. */
  lemma AssignedUrlIsRead(key: string, scheme: string, a: Authority, tail: string, hostish: bool)
    requires IsKey(key) && ':' !in scheme && WellFormed(a) && IsTail(tail)
    requires forall c :: c in scheme + "://" + (Written(a) + tail) ==> !Separates(c)
    ensures Tokens(key + "=" + (scheme + "://" + (Written(a) + tail)), hostish) == OneOrNone(NamedHost(a.host, true))
  {
    ValueIsRead(key, scheme + "://" + (Written(a) + tail), hostish);
    UrlHostIsFound(scheme, a, tail, hostish);
    hide Tokens;
    hide HostToken;
    hide NamedHost;
    hide Written;
  }
}
