/** Relationships and the object names they are stored under. */
module RelationshipNames {
  import opened Base
  import opened Text

  datatype Kind = Deployment | StatefulSet | DaemonSet | Service

  datatype Ref = Ref(kind: Kind, ns: string, name: string, uid: string)

  datatype Type = Serves | TalksTo

  datatype Evidence = BySelector(selector: map<string, string>) | Mentions(place: string, host: string)

  datatype Relationship = Relationship(from: Ref, to: Ref, typ: Type, evidence: Evidence)

  // ---------- Names ----------

  const MAX_NAME := 253
  const DIGEST := 10

  function KindShort(k: Kind): string {
    match k
    case Deployment => "deploy"
    case StatefulSet => "sts"
    case DaemonSet => "ds"
    case Service => "svc"
  }

  function TypeText(t: Type): string {
    match t
    case Serves => "serves"
    case TalksTo => "talks-to"
  }

  predicate Trimmed(c: char) {
    c == '.' || c == '-'
  }

  function Party(r: Ref): string {
    KindShort(r.kind) + "-" + r.name
  }

  /** kind-name.type.kind-name of the two parties. */
  function Both(r: Relationship): string {
    Party(r.from) + ("." + TypeText(r.typ) + ".") + Party(r.to)
  }

  /** The namespace of the second party, where it is another one. */
  function Elsewhere(r: Relationship): string {
    if r.to.ns != r.from.ns then "." + r.to.ns else ""
  }

  function Tidied(s: string, tail: string): string {
    Trim(Lower(s) + tail, Trimmed)
  }

  /** The name before it is cut to length. */
  function FullName(r: Relationship): string {
    Tidied(Both(r), Elsewhere(r))
  }

  /** The object name; `digest` gives the first digits of a hash of a name that is too long. */
  function Name(r: Relationship, digest: string -> string): string {
    var n := FullName(r);
    if |n| <= MAX_NAME then n
    else TrimRight(n[..MAX_NAME - 1 - DIGEST], Trimmed) + "-" + digest(n)
  }

  // ---------- DNS names, section 2.1 of RFC 1123 ----------

  predicate IsAlnum(c: char) {
    'a' <= c <= 'z' || '0' <= c <= '9'
  }

  /** A dotless label: a namespace or a Service. */
  predicate IsLabel(s: string) {
    s != "" && IsAlnum(s[0]) && IsAlnum(s[|s| - 1]) && forall c :: c in s ==> IsAlnum(c) || c == '-'
  }

  /** A name that may have dots: a workload. */
  predicate IsSubdomain(s: string) {
    s != "" && IsAlnum(s[0]) && IsAlnum(s[|s| - 1]) && forall c :: c in s ==> IsAlnum(c) || c == '-' || c == '.'
  }

  /** A relationship that the graph can hold. */
  predicate Producible(r: Relationship) {
    match r.typ
    case Serves =>
      && r.from.kind.Service? && IsLabel(r.from.name) && !r.to.kind.Service? && IsSubdomain(r.to.name)
      && r.to.ns == r.from.ns
    case TalksTo =>
      !r.from.kind.Service? && IsSubdomain(r.from.name) && r.to.kind.Service? && IsLabel(r.to.name) && IsLabel(r.to.ns)
  }

  // ---------- What a name looks like ----------

  predicate NameChars(s: string) {
    forall c :: c in s ==> IsAlnum(c) || c == '-' || c == '.'
  }

  /** Starts and ends with a letter or a digit. */
  predicate Bounded(s: string) {
    s != "" && IsAlnum(s[0]) && IsAlnum(s[|s| - 1])
  }

  lemma TrimIsSame(s: string)
    requires Bounded(s)
    ensures Trim(s, Trimmed) == s
  {
  }

  /** Three pieces of name characters are left alone by lowering, and with a tail by trimming. */
  lemma NameOfPieces(a: string, m: string, b: string, tail: string)
    requires NameChars(a) && NameChars(m) && NameChars(b) && Bounded(a)
    requires Bounded(b) && (tail == "" || IsAlnum(tail[|tail| - 1]))
    ensures Tidied(a + m + b, tail) == a + m + b + tail
  {
    LowerIsSame(a + m + b);
    var n := a + m + b + tail;
    assert n[0] == a[0];
    assert n[|n| - 1] == if tail == "" then b[|b| - 1] else tail[|tail| - 1];
    TrimIsSame(n);
  }

  lemma PartyIsName(r: Ref)
    requires IsSubdomain(r.name)
    ensures NameChars(Party(r)) && Bounded(Party(r))
  {
    var k := KindShort(r.kind);
    assert NameChars(k) && NameChars("-") && NameChars(r.name);
    assert Party(r)[0] == k[0];
    assert Party(r)[|Party(r)| - 1] == r.name[|r.name| - 1];
  }

  const TALKS := ".talks-to.svc-"
  const SERVES := ".serves."

  /** What follows a workload's name in the name of what it talks to. */
  function Target(r: Relationship): string {
    r.to.name + Elsewhere(r)
  }

  lemma Middles()
    ensures "." + TypeText(TalksTo) + "." == ".talks-to." && NameChars(".talks-to.")
    ensures "." + TypeText(Serves) + "." == SERVES && NameChars(SERVES)
    ensures ".talks-to." + "svc-" == TALKS
    ensures KindShort(Service) + "-" == "svc-"
  {
  }

  lemma TalksName(r: Relationship)
    requires Producible(r) && r.typ.TalksTo?
    ensures FullName(r) == Party(r.from) + TALKS + Target(r)
  {
    PartyIsName(r.from);
    PartyIsName(r.to);
    Middles();
    TailEnds(r);
    NameOfPieces(Party(r.from), ".talks-to.", Party(r.to), Elsewhere(r));
    Reassociate(Party(r.from), ".talks-to.", "svc-", r.to.name, Elsewhere(r));
  }

  lemma TailEnds(r: Relationship)
    requires Producible(r)
    ensures var tail := Elsewhere(r); tail == "" || IsAlnum(tail[|tail| - 1])
  {
    assert Elsewhere(r) != "" ==> Elsewhere(r)[|Elsewhere(r)| - 1] == r.to.ns[|r.to.ns| - 1];
  }

  lemma Reassociate(a: string, m: string, k: string, b: string, tail: string)
    ensures a + m + (k + b) + tail == a + (m + k) + (b + tail)
  {
  }

  lemma ServesName(r: Relationship)
    requires Producible(r) && r.typ.Serves?
    ensures FullName(r) == Party(r.from) + (SERVES + Party(r.to))
  {
    PartyIsName(r.from);
    PartyIsName(r.to);
    Middles();
    NameOfPieces(Party(r.from), SERVES, Party(r.to), "");
    NoTail(Party(r.from), SERVES, Party(r.to));
  }

  lemma NoTail(a: string, m: string, b: string)
    ensures a + m + b + "" == a + (m + b)
  {
  }

  /** The short text of a kind. */
  ghost predicate IsKindText(kind: Kind, text: string) {
    match kind
    case Deployment => text == "deploy"
    case StatefulSet => text == "sts"
    case DaemonSet => text == "ds"
    case Service => text == "svc"
  }

  /** A name before it is cut, piece by piece: names in the graph need no lowering and no trimming. */
  lemma NameIsWritten(r: Relationship, from: string, to: string)
    requires Producible(r) && IsKindText(r.from.kind, from) && IsKindText(r.to.kind, to)
    ensures FullName(r) ==
            if r.typ.Serves? then "svc-" + r.from.name + ".serves." + to + "-" + r.to.name
            else from + "-" + r.from.name + ".talks-to.svc-" + r.to.name +
                 (if r.to.ns != r.from.ns then "." + r.to.ns else "")
  {
    var n := FullName(r);
    if r.typ.Serves? {
      ServesName(r);
      hide FullName;
      var m := ".serves.";
      assert n == ("svc-" + r.from.name) + (m + (to + "-" + r.to.name));
      assert n == "svc-" + r.from.name + m + to + "-" + r.to.name;
    } else {
      TalksName(r);
      hide FullName;
      var m := ".talks-to.svc-";
      assert n == (from + "-" + r.from.name) + m + Target(r);
      assert n == from + "-" + r.from.name + m + r.to.name + Elsewhere(r);
    }
  }

  lemma {:induction false} TrimRightIs(s: string)
    ensures var kept := TrimRight(s, Trimmed);
      && kept <= s && (kept != "" ==> kept[|kept| - 1] != '.' && kept[|kept| - 1] != '-')
      && forall k :: |kept| <= k < |s| ==> s[k] == '.' || s[k] == '-'
  {
    if s == "" {
    } else if Trimmed(s[|s| - 1]) {
      TrimRightIs(s[..|s| - 1]);
    }
  }

  /** What is left of a long name, short enough for the digest, without dots and dashes at the end. */
  ghost predicate IsCutTo(n: string, kept: string) {
    && |kept| <= 242 <= |n| && kept <= n
    && (kept != "" ==> kept[|kept| - 1] != '.' && kept[|kept| - 1] != '-')
    && forall k :: |kept| <= k < 242 ==> n[k] == '.' || n[k] == '-'
  }

  /** A name of more than 253 characters is cut, and its digest follows. */
  lemma LongNameIsCut(r: Relationship, digest: string -> string)
    ensures var n := FullName(r);
      if |n| <= 253 then Name(r, digest) == n
      else exists kept :: IsCutTo(n, kept) && Name(r, digest) == kept + "-" + digest(n)
  {
    var n := FullName(r);
    hide FullName;
    if |n| > 253 {
      var kept := TrimRight(n[..242], Trimmed);
      TrimRightIs(n[..242]);
      assert IsCutTo(n, kept);
      hide TrimRight;
    }
  }

  // ---------- Reading a name back ----------

  /** No second dot from `from` on: what can follow a workload's name. */
  ghost predicate OneDot(s: string, from: nat) {
    forall i, j | from <= i < j < |s| && s[i] == '.' :: s[j] != '.'
  }

  lemma TargetHasOneDot(name: string, ns: string)
    requires '.' !in name && '.' !in ns
    ensures OneDot(name + ("." + ns), 0) && OneDot(name, 0)
  {
    var t := name + ("." + ns);
    assert forall i :: 0 <= i < |name| ==> name[i] in name;
    assert forall i :: 0 <= i < |name| ==> t[i] == name[i];
    forall j | |name| < j < |t|
      ensures t[j] != '.'
    {
      assert t[j] == ns[j - |name| - 1] && ns[j - |name| - 1] in ns;
    }
  }

  lemma TalksTargetHasOneDot(r: Relationship)
    requires Producible(r) && r.typ.TalksTo?
    ensures OneDot(Target(r), 0)
  {
    TargetHasOneDot(r.to.name, r.to.ns);
    assert r.to.name + "" == r.to.name;
  }

  lemma TalksChars()
    ensures |TALKS| == 14 && TALKS[0] == '.' && TALKS[1] == 't' && TALKS[9] == '.' && TALKS[10] == 's'
    ensures forall k :: 0 < k < 14 && TALKS[k] == '.' ==> k == 9
  {
    assert TALKS[2] == 'a' && TALKS[3] == 'l' && TALKS[4] == 'k' && TALKS[5] == 's';
    assert TALKS[6] == '-' && TALKS[7] == 't' && TALKS[8] == 'o';
    assert TALKS[11] == 'v' && TALKS[12] == 'c' && TALKS[13] == '-';
  }

  ghost predicate MarkedAt(w: string, p: nat) {
    p + |TALKS| <= |w| && forall k :: 0 <= k < |TALKS| ==> w[p + k] == TALKS[k]
  }

  /** Wherever the text of a talks-to name recurs in a workload's name, only its last occurrence counts. */
  lemma MarkerIsLast(w: string, p: nat, q: nat)
    requires MarkedAt(w, p) && MarkedAt(w, q) && OneDot(w, p + |TALKS|)
    ensures q <= p
  {
    TalksChars();
    assert w[q + 0] == '.' && w[q + 9] == '.' && w[q + 1] == 't' && w[p + 10] == 's';
    assert p <= q < p + 14 ==> w[p + (q - p)] == TALKS[q - p];
  }

  lemma Marked(a: string, s: string)
    requires OneDot(s, 0)
    ensures MarkedAt(a + TALKS + s, |a|) && OneDot(a + TALKS + s, |a| + |TALKS|)
  {
    var w := a + TALKS + s;
    var n := |a| + |TALKS|;
    assert forall i :: n <= i < |w| ==> w[i] == s[i - n];
  }

  lemma SplitAtMarker(a: string, s: string, b: string, t: string)
    requires a + TALKS + s == b + TALKS + t && OneDot(s, 0) && OneDot(t, 0)
    ensures a == b && s == t
  {
    var w := a + TALKS + s;
    Marked(a, s);
    Marked(b, t);
    MarkerIsLast(w, |a|, |b|);
    MarkerIsLast(w, |b|, |a|);
    assert a == w[..|a|] && b == w[..|b|];
    assert s == w[|a| + |TALKS|..] && t == w[|b| + |TALKS|..];
  }

  /** A dotless word before the first dot, or all of the text, is read back. */
  lemma SplitAtDot(a: string, s: string, b: string, t: string)
    requires '.' !in a && '.' !in b && (s == "" || s[0] == '.') && (t == "" || t[0] == '.')
    requires a + s == b + t
    ensures a == b && s == t
  {
    DotAfter(a, s);
    DotAfter(b, t);
    var w := a + s;
    assert a == w[..|a|] && b == w[..|b|] && s == w[|a|..] && t == w[|b|..];
  }

  lemma DotAfter(a: string, s: string)
    requires '.' !in a && (s == "" || s[0] == '.')
    ensures IndexOf(a + s, '.') == |a|
  {
    var w := a + s;
    assert forall k :: 0 <= k < |a| ==> w[k] == a[k] && a[k] in a;
    assert s != "" ==> w[|a|] == '.';
  }

  lemma SplitParty(a: Ref, b: Ref)
    requires Party(a) == Party(b)
    ensures a.kind == b.kind && a.name == b.name
  {
    var k, l := KindShort(a.kind), KindShort(b.kind);
    assert Party(a)[0] == k[0] && Party(a)[1] == k[1];
    assert Party(b)[0] == l[0] && Party(b)[1] == l[1];
    assert a.name == Party(a)[|k| + 1..] && b.name == Party(b)[|l| + 1..];
  }

  /** The same parties and the same type; the UIDs are those of the parties. */
  predicate SameEdge(a: Relationship, b: Relationship) {
    && a.typ == b.typ
    && a.from.kind == b.from.kind && a.from.name == b.from.name && a.from.ns == b.from.ns
    && a.to.kind == b.to.kind && a.to.name == b.to.name && a.to.ns == b.to.ns
  }

  lemma TalksNamesDiffer(a: Relationship, b: Relationship)
    requires Producible(a) && Producible(b) && a.from.ns == b.from.ns && a.typ.TalksTo? && b.typ.TalksTo?
    requires FullName(a) == FullName(b)
    ensures SameEdge(a, b)
  {
    TalksName(a);
    TalksName(b);
    TalksTargetHasOneDot(a);
    TalksTargetHasOneDot(b);
    SplitAtMarker(Party(a.from), Target(a), Party(b.from), Target(b));
    SplitParty(a.from, b.from);
    var s, t := Elsewhere(a), Elsewhere(b);
    SplitAtDot(a.to.name, s, b.to.name, t);
    assert s != "" ==> a.to.ns == s[1..];
    assert t != "" ==> b.to.ns == t[1..];
  }

  lemma ServesNamesDiffer(a: Relationship, b: Relationship)
    requires Producible(a) && Producible(b) && a.from.ns == b.from.ns && a.typ.Serves? && b.typ.Serves?
    requires FullName(a) == FullName(b)
    ensures SameEdge(a, b)
  {
    ServesName(a);
    ServesName(b);
    ServiceHasNoDot(a.from);
    ServiceHasNoDot(b.from);
    var x, y := SERVES + Party(a.to), SERVES + Party(b.to);
    SplitAtDot(Party(a.from), x, Party(b.from), y);
    assert x[|SERVES|..] == Party(a.to) && y[|SERVES|..] == Party(b.to);
    SplitParty(a.from, b.from);
    SplitParty(a.to, b.to);
  }

  lemma ServiceHasNoDot(r: Ref)
    requires r.kind.Service? && IsLabel(r.name)
    ensures '.' !in Party(r)
  {
    assert '.' !in "svc" && '.' !in "-";
  }

  lemma ServesAreNotTalks(a: Relationship, b: Relationship)
    requires Producible(a) && Producible(b) && a.typ.Serves? && b.typ.TalksTo?
    ensures FullName(a) != FullName(b)
  {
    ServesName(a);
    TalksName(b);
    var k := KindShort(b.from.kind);
    assert FullName(a)[0] == 's' && FullName(a)[1] == 'v';
    assert FullName(b)[0] == k[0] && FullName(b)[1] == k[1];
  }

  /**
   * Within a namespace, different relationships have different names unless they are cut,
   * whatever dots and texts the workloads' names hold.
   */
  lemma NamesDoNotCollide(a: Relationship, b: Relationship, digest: string -> string)
    requires Producible(a) && Producible(b) && a.from.ns == b.from.ns
    requires |FullName(a)| <= MAX_NAME && |FullName(b)| <= MAX_NAME
    requires Name(a, digest) == Name(b, digest)
    ensures SameEdge(a, b)
  {
    if a.typ != b.typ {
      if a.typ.Serves? {
        ServesAreNotTalks(a, b);
      } else {
        ServesAreNotTalks(b, a);
      }
    } else if a.typ.TalksTo? {
      TalksNamesDiffer(a, b);
    } else {
      ServesNamesDiffer(a, b);
    }
  }

  /** A name always fits; names that are cut differ when their digests do. */
  lemma CutNamesEndInDigests(a: Relationship, b: Relationship, digest: string -> string)
    requires |digest(FullName(a))| == DIGEST && |digest(FullName(b))| == DIGEST
    ensures |Name(a, digest)| <= MAX_NAME
    ensures |FullName(a)| > MAX_NAME && |FullName(b)| > MAX_NAME && Name(a, digest) == Name(b, digest) ==>
      digest(FullName(a)) == digest(FullName(b))
  {
    var m, n := FullName(a), FullName(b);
    hide FullName;
    if |m| > MAX_NAME {
      TrimRightIs(m[..MAX_NAME - 1 - DIGEST]);
      var x := Name(a, digest);
      assert x[|x| - DIGEST..] == digest(m);
    }
    if |n| > MAX_NAME {
      var y := Name(b, digest);
      assert y[|y| - DIGEST..] == digest(n);
    }
  }

  /** The name is one that ends in a digest. */
  predicate EndsIn(s: string, suffix: string) {
    |suffix| <= |s| && s[|s| - |suffix|..] == suffix
  }

  lemma CutNameEnds(r: Relationship, digest: string -> string)
    requires |FullName(r)| > MAX_NAME
    ensures EndsIn(Name(r, digest), "-" + digest(FullName(r)))
  {
    var n := FullName(r);
    hide FullName;
    var kept := TrimRight(n[..MAX_NAME - 1 - DIGEST], Trimmed);
    assert Name(r, digest) == kept + ("-" + digest(n));
  }

  /**
   * Two relationships of a namespace have one name only if they are the same, or both are cut
   * and their digests are equal, or one is cut and the other, uncut, ends in its digest.
   */
  lemma NamesMeetOnlyByDigest(a: Relationship, b: Relationship, digest: string -> string)
    requires Producible(a) && Producible(b) && a.from.ns == b.from.ns && Name(a, digest) == Name(b, digest)
    requires |digest(FullName(a))| == DIGEST && |digest(FullName(b))| == DIGEST
    ensures
      || SameEdge(a, b)
      || (|FullName(a)| > MAX_NAME && |FullName(b)| > MAX_NAME && digest(FullName(a)) == digest(FullName(b)))
      || (|FullName(a)| > MAX_NAME >= |FullName(b)| && EndsIn(FullName(b), "-" + digest(FullName(a))))
      || (|FullName(b)| > MAX_NAME >= |FullName(a)| && EndsIn(FullName(a), "-" + digest(FullName(b))))
  {
    CutNamesEndInDigests(a, b, digest);
    if |FullName(a)| <= MAX_NAME && |FullName(b)| <= MAX_NAME {
      NamesDoNotCollide(a, b, digest);
    } else if |FullName(a)| > MAX_NAME {
      CutNameEnds(a, digest);
    } else {
      CutNameEnds(b, digest);
    }
    hide FullName;
    hide EndsIn;
    hide Producible;
    hide SameEdge;
  }

  /**
   * The last case happens: where what is left of a cut name reaches into the name of the
   * Service, a Service whose name goes on with the dash and the digest has it too.
   */
  lemma CutNameCanBeMet(a: Relationship, x: string, digest: string -> string)
    requires Producible(a) && a.typ.TalksTo? && a.to.ns == a.from.ns && |FullName(a)| > MAX_NAME
    requires FullName(a)[..MAX_NAME - 1 - DIGEST] == Party(a.from) + TALKS + x && x <= a.to.name && Bounded(x)
    requires |digest(FullName(a))| == DIGEST && forall c :: c in digest(FullName(a)) ==> IsAlnum(c)
    ensures var b := a.(to := a.to.(name := x + "-" + digest(FullName(a))));
      Producible(b) && !SameEdge(a, b) && |FullName(b)| <= MAX_NAME && Name(a, digest) == Name(b, digest)
  {
    var d := digest(FullName(a));
    var b := a.(to := a.to.(name := x + "-" + d));
    LongerLabel(a.to.name, x, d);
    TalksName(b);
    assert b.to.name + "" == b.to.name;
    assert Party(b.from) + TALKS + (x + "-" + d) == Party(a.from) + TALKS + x + "-" + d;
    var kept := Party(a.from) + TALKS + x;
    assert kept[|kept| - 1] == x[|x| - 1];
    assert TrimRight(kept, Trimmed) == kept;
    hide FullName;
    assert Name(a, digest) == kept + "-" + d;
  }

  lemma LongerLabel(name: string, x: string, d: string)
    requires IsLabel(name) && x <= name && Bounded(x) && d != "" && forall c :: c in d ==> IsAlnum(c)
    ensures IsLabel(x + "-" + d)
  {
    var s := x + "-" + d;
    assert s[0] == x[0] && s[|s| - 1] == d[|d| - 1] && d[|d| - 1] in d;
    assert forall i :: 0 <= i < |x| ==> x[i] == name[i];
    assert forall c :: c in s ==> c in x || c == '-' || c in d;
  }
}
