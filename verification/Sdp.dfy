/** Rewriting the backend's SDP answer (internal/nethernet/gateway.go:395-556).  Text is a sequence of
    characters with ASCII white space; an address parser is a parameter. */
module Sdp {
  import opened Prelude

  // ---------------------------------------------------------------- white space

  /** Space, or one of tab, line feed, vertical tab, form feed, carriage return. */
  predicate IsWs(c: char) { c == ' ' || '\t' <= c <= '\r' }

  function TrimRight(s: string): string {
    if s == [] || !IsWs(s[|s| - 1]) then s else TrimRight(s[..|s| - 1])
  }

  function TrimLeft(s: string): string {
    if s == [] || !IsWs(s[0]) then s else TrimLeft(s[1..])
  }

  /** `strings.TrimSpace`. */
  function Trim(s: string): string { TrimLeft(TrimRight(s)) }

  predicate Trimmed(s: string) { s == [] || (!IsWs(s[0]) && !IsWs(s[|s| - 1])) }

  lemma {:induction false} TrimRightShape(s: string)
    ensures TrimRight(s) <= s && (TrimRight(s) == [] || !IsWs(TrimRight(s)[|TrimRight(s)| - 1]))
    decreases |s|
  {
    if s != [] && IsWs(s[|s| - 1]) {
      TrimRightShape(s[..|s| - 1]);
    }
  }

  lemma {:induction false} TrimLeftTrims(r: string)
    requires r == [] || !IsWs(r[|r| - 1])
    ensures Trimmed(TrimLeft(r)) && (Trimmed(r) ==> TrimLeft(r) == r)
    ensures '\n' !in r ==> '\n' !in TrimLeft(r)
    decreases |r|
  {
    if r != [] && IsWs(r[0]) {
      TrimLeftTrims(r[1..]);
    }
  }

  /** Trimming yields trimmed text, without adding characters, and leaves trimmed text alone. */
  lemma TrimShape(s: string)
    ensures Trimmed(Trim(s)) && (Trimmed(s) ==> Trim(s) == s)
    ensures '\n' !in s ==> '\n' !in Trim(s)
  {
    TrimRightShape(s);
    TrimLeftTrims(TrimRight(s));
  }

  predicate AllWs(s: string) { forall i | 0 <= i < |s| :: s[i] == ' ' || 9 <= s[i] as int <= 13 }

  /** Trimming takes white space off both ends and nothing else. */
  lemma TrimCuts(s: string) returns (i: nat, j: nat)
    ensures i <= j <= |s| && Trim(s) == s[i..j] && AllWs(s[..i]) && AllWs(s[j..]) && Trimmed(Trim(s))
  {
    TrimShape(s);
    j := RightCut(s);
    i := LeftCut(s[..j]);
    assert s[..j][i..] == s[i..j] && s[..j][..i] == s[..i];
  }

  lemma {:induction false} RightCut(s: string) returns (j: nat)
    ensures j <= |s| && TrimRight(s) == s[..j] && AllWs(s[j..])
    decreases |s|
  {
    if s == [] || !IsWs(s[|s| - 1]) {
      j := |s|;
      assert s[..j] == s;
    } else {
      var r := s[..|s| - 1];
      j := RightCut(r);
      assert r[..j] == s[..j];
      forall i | 0 <= i < |s[j..]| ensures s[j..][i] == ' ' || 9 <= s[j..][i] as int <= 13 {
        if i < |r[j..]| { assert s[j..][i] == r[j..][i]; }
      }
    }
  }

  lemma {:induction false} LeftCut(s: string) returns (i: nat)
    ensures i <= |s| && TrimLeft(s) == s[i..] && AllWs(s[..i])
    decreases |s|
  {
    if s == [] || !IsWs(s[0]) {
      i := 0;
    } else {
      var r := s[1..];
      i := LeftCut(r);
      assert r[i..] == s[i + 1..];
      var cut := s[..i + 1];
      forall k | 0 <= k < |cut| ensures cut[k] == ' ' || 9 <= cut[k] as int <= 13 {
        if k > 0 { assert cut[k] == r[..i][k - 1]; }
      }
      i := i + 1;
    }
  }

  // ---------------------------------------------------------------- words

  predicate IsToken(t: string) { t != [] && forall i | 0 <= i < |t| :: !IsWs(t[i]) }

  predicate AllTokens(ts: seq<string>) { forall i | 0 <= i < |ts| :: IsToken(ts[i]) }

  function TokenLen(s: string): (n: nat)
    ensures n <= |s| && (forall i | 0 <= i < n :: !IsWs(s[i])) && (n < |s| ==> IsWs(s[n]))
  {
    if s == [] || IsWs(s[0]) then 0 else 1 + TokenLen(s[1..])
  }

  /** `strings.Fields`. */
  function Fields(s: string): seq<string>
    decreases |s|
  {
    if s == [] then []
    else if IsWs(s[0]) then Fields(s[1..])
    else [s[..TokenLen(s)]] + Fields(s[TokenLen(s)..])
  }

  function Join(ts: seq<string>, sep: string): string {
    if ts == [] then [] else if |ts| == 1 then ts[0] else ts[0] + sep + Join(ts[1..], sep)
  }

  lemma {:induction false} FieldsAreTokens(s: string)
    ensures AllTokens(Fields(s))
    decreases |s|
  {
    if s != [] {
      if IsWs(s[0]) { FieldsAreTokens(s[1..]); } else { FieldsAreTokens(s[TokenLen(s)..]); }
    }
  }

  lemma TokenLenUnique(s: string, n: nat)
    requires n <= |s| && (forall i | 0 <= i < n :: !IsWs(s[i])) && (n < |s| ==> IsWs(s[n]))
    ensures TokenLen(s) == n
  {
  }

  /** Words put together with single spaces come apart again. */
  lemma {:induction false} FieldsOfJoin(ts: seq<string>)
    requires AllTokens(ts)
    ensures Fields(Join(ts, " ")) == ts
    decreases |ts|
  {
    if |ts| == 1 {
      TokenLenUnique(ts[0], |ts[0]|);
      assert ts[0][..|ts[0]|] == ts[0] && ts[0][|ts[0]|..] == [];
      assert Fields(ts[0]) == [ts[0]] + Fields([]);
    } else if |ts| > 1 {
      var rest := Join(ts[1..], " ");
      var s := ts[0] + " " + rest;
      TokenLenUnique(s, |ts[0]|);
      assert s[..|ts[0]|] == ts[0] && s[|ts[0]|..] == " " + rest;
      assert (" " + rest)[1..] == rest;
      FieldsOfJoin(ts[1..]);
      assert Fields(s) == [ts[0]] + Fields(" " + rest);
    }
  }

  /** Words with any white space around them. */
  function Spaced(ts: seq<string>, gaps: seq<string>): string
    requires |gaps| == |ts| + 1
  {
    if ts == [] then gaps[0] else gaps[0] + ts[0] + Spaced(ts[1..], gaps[1..])
  }

  /** Whatever white space stands around and between words, they come apart. */
  lemma {:induction false} FieldsOfSpaced(ts: seq<string>, gaps: seq<string>)
    requires |gaps| == |ts| + 1 && AllTokens(ts) && (forall i | 0 <= i < |gaps| :: AllWs(gaps[i]))
    requires forall i | 0 < i < |ts| :: gaps[i] != []
    ensures Fields(Spaced(ts, gaps)) == ts
    decreases |ts|
  {
    if ts == [] {
      SkipWs(gaps[0], []);
      assert gaps[0] + [] == gaps[0];
    } else {
      var rest := Spaced(ts[1..], gaps[1..]);
      FieldsOfSpaced(ts[1..], gaps[1..]);
      assert gaps[0] + ts[0] + rest == gaps[0] + (ts[0] + rest);
      SkipWs(gaps[0], ts[0] + rest);
      var s := ts[0] + rest;
      SpacedStart(ts[1..], gaps[1..]);
      TokenLenUnique(s, |ts[0]|);
      assert s[..|ts[0]|] == ts[0] && s[|ts[0]|..] == rest;
    }
  }

  lemma SpacedStart(ts: seq<string>, gaps: seq<string>)
    requires |gaps| == |ts| + 1 && AllWs(gaps[0]) && (ts != [] ==> gaps[0] != [])
    ensures Spaced(ts, gaps) == [] || IsWs(Spaced(ts, gaps)[0])
  {
    if gaps[0] != [] { assert Spaced(ts, gaps)[0] == gaps[0][0]; }
  }

  lemma {:induction false} SkipWs(w: string, s: string)
    requires AllWs(w)
    ensures Fields(w + s) == Fields(s)
    decreases |w|
  {
    if w == [] {
      assert w + s == s;
    } else {
      assert (w + s)[0] == w[0] && (w + s)[1..] == w[1..] + s;
      SkipWs(w[1..], s);
    }
  }

  /** Such a line is trimmed and has no line break. */
  lemma {:induction false} JoinShape(ts: seq<string>)
    requires AllTokens(ts)
    ensures Trimmed(Join(ts, " ")) && '\n' !in Join(ts, " ")
    ensures ts != [] ==> ts[0] <= Join(ts, " ")
    decreases |ts|
  {
    if |ts| > 1 {
      JoinShape(ts[1..]);
      assert ts[1] <= Join(ts[1..], " ");
      var j := Join(ts, " ");
      assert j[|j| - 1] == Join(ts[1..], " ")[|Join(ts[1..], " ")| - 1];
    }
  }

  /** The first word of a line carries every prefix that has no white space. */
  lemma FirstFieldPrefix(s: string, p: string)
    requires p <= s && IsToken(p)
    ensures Fields(s) != [] && p <= Fields(s)[0]
  {
    var n := TokenLen(s);
    assert forall i | 0 <= i < |p| :: s[i] == p[i];
  }

  // ---------------------------------------------------------------- lines

  /** `strings.ReplaceAll(s, "\r\n", "\n")`. */
  function Unify(s: string): string
    decreases |s|
  {
    if s == [] then []
    else if |s| >= 2 && s[0] == '\r' && s[1] == '\n' then ['\n'] + Unify(s[2..])
    else [s[0]] + Unify(s[1..])
  }

  /** `strings.Split(s, "\n")`. */
  function Split(s: string): (r: seq<string>)
    ensures r != []
  {
    if s == [] then [[]]
    else
      var r := Split(s[1..]);
      if s[0] == '\n' then [[]] + r else [[s[0]] + r[0]] + r[1..]
  }

  function Lines(s: string): seq<string> { Split(Unify(s)) }

  predicate HasCrlf(s: string) { exists i :: 0 <= i < |s| - 1 && s[i] == '\r' && s[i + 1] == '\n' }

  function Separator(s: string): string { if HasCrlf(s) then "\r\n" else "\n" }

  function TrimAll(ls: seq<string>): (r: seq<string>)
    ensures |r| == |ls| && forall i | 0 <= i < |ls| :: r[i] == Trim(ls[i])
  {
    if ls == [] then [] else [Trim(ls[0])] + TrimAll(ls[1..])
  }

  predicate PlainLine(l: string) { Trimmed(l) && '\n' !in l }

  predicate AllPlain(ls: seq<string>) { forall i | 0 <= i < |ls| :: PlainLine(ls[i]) }

  lemma {:induction false} SplitNoBreaks(s: string)
    ensures forall i | 0 <= i < |Split(s)| :: '\n' !in Split(s)[i]
    decreases |s|
  {
    if s != [] {
      SplitNoBreaks(s[1..]);
    }
  }

  lemma TrimmedLinesPlain(s: string)
    ensures AllPlain(TrimAll(Split(s)))
  {
    SplitNoBreaks(s);
    forall i | 0 <= i < |Split(s)| ensures PlainLine(TrimAll(Split(s))[i]) {
      TrimShape(Split(s)[i]);
    }
  }

  /** One plain line with its separator comes apart again. */
  lemma {:induction false} PeelLine(l: string, sep: string, rest: string)
    requires '\n' !in l && (l == [] || l[|l| - 1] != '\r') && (sep == "\n" || sep == "\r\n")
    ensures Lines(l + sep + rest) == [l] + Lines(rest)
    decreases |l|
  {
    var s := l + sep + rest;
    if l == [] {
      if sep == "\n" { assert s[1..] == rest; } else { assert s[2..] == rest; }
      assert Unify(s) == ['\n'] + Unify(rest);
      assert Unify(s)[1..] == Unify(rest);
    } else {
      assert s[1..] == l[1..] + sep + rest;
      assert s[0] == l[0];
      if |l| > 1 { assert s[1] == l[1]; }
      PeelLine(l[1..], sep, rest);
      assert Unify(s) == [s[0]] + Unify(s[1..]);
      assert Unify(s)[1..] == Unify(s[1..]);
      assert [l[0]] + l[1..] == l;
    }
  }

  lemma {:induction false} LastLine(l: string)
    requires '\n' !in l
    ensures Lines(l) == [l]
    decreases |l|
  {
    if l != [] {
      LastLine(l[1..]);
      assert Unify(l) == [l[0]] + Unify(l[1..]);
      assert Unify(l)[1..] == Unify(l[1..]);
      assert [l[0]] + l[1..] == l;
    }
  }

  /** Joined plain lines come apart again, with either separator. */
  lemma {:induction false} LinesOfJoin(ls: seq<string>, sep: string)
    requires ls != [] && AllPlain(ls) && (sep == "\n" || sep == "\r\n")
    ensures Lines(Join(ls, sep)) == ls
    decreases |ls|
  {
    assert PlainLine(ls[0]);
    if |ls| == 1 {
      LastLine(ls[0]);
    } else {
      LinesOfJoin(ls[1..], sep);
      PeelLine(ls[0], sep, Join(ls[1..], sep));
    }
  }

  lemma {:induction false} NoCrlfOf(ls: seq<string>)
    requires AllPlain(ls)
    ensures !HasCrlf(Join(ls, "\n"))
    decreases |ls|
  {
    if ls != [] {
      assert PlainLine(ls[0]);
      if |ls| > 1 {
        NoCrlfOf(ls[1..]);
        var s, rest := Join(ls, "\n"), Join(ls[1..], "\n");
        forall i | 0 <= i < |s| - 1 ensures !(s[i] == '\r' && s[i + 1] == '\n') {
          var n := |ls[0]|;
          assert forall k | 0 <= k < n :: s[k] == ls[0][k];
          assert s[n] == '\n' && forall k | 0 <= k < |rest| :: s[n + 1 + k] == rest[k];
          if i < n - 1 { assert s[i + 1] in ls[0]; }
          if i > n { assert s[i] == rest[i - n - 1] && s[i + 1] == rest[i - n]; }
        }
      }
    }
  }

  lemma CrlfOf(ls: seq<string>)
    requires |ls| > 1
    ensures HasCrlf(Join(ls, "\r\n"))
  {
    var s := Join(ls, "\r\n");
    assert s[|ls[0]|] == '\r' && s[|ls[0]| + 1] == '\n';
  }

  /** The ufrag reader splits without unifying line ends first; trimming makes up for it. */
  lemma {:induction false} SplitTrimsAlike(s: string)
    ensures TrimRights(Split(s)) == TrimRights(Lines(s))
    decreases |s|
  {
    if s != [] {
      var u := Unify(s);
      if |s| >= 2 && s[0] == '\r' && s[1] == '\n' {
        SplitTrimsAlike(s[2..]);
        assert u[1..] == Unify(s[2..]);
        CrlfTrimsAlike(s);
      } else {
        SplitTrimsAlike(s[1..]);
        assert u[0] == s[0] && u[1..] == Unify(s[1..]);
        ConsTrimsAlike(s[0], Split(s[1..]), Split(u[1..]));
      }
    }
  }

  lemma CrlfTrimsAlike(s: string)
    requires |s| >= 2 && s[0] == '\r' && s[1] == '\n'
    ensures TrimRights(Split(s)) == [[]] + TrimRights(Split(s[2..]))
  {
    assert s[1..][0] == '\n' && s[1..][1..] == s[2..];
    assert Split(s[1..]) == [[]] + Split(s[2..]);
    assert Split(s) == [[s[0]] + []] + Split(s[2..]);
    assert TrimRight([s[0]] + []) == [] by { assert ([s[0]] + [])[..0] == []; }
  }

  /** One more character in front, whether it opens the first line or ends it. */
  lemma ConsTrimsAlike(c: char, r: seq<string>, q: seq<string>)
    requires r != [] && q != [] && TrimRights(r) == TrimRights(q)
    ensures var a, b := if c == '\n' then [[]] + r else [[c] + r[0]] + r[1..], if c == '\n' then [[]] + q else [[c] + q[0]] + q[1..];
            TrimRights(a) == TrimRights(b)
  {
    if c != '\n' {
      assert TrimRight(r[0]) == TrimRight(q[0]);
      TrimRightCons(c, r[0]);
      TrimRightCons(c, q[0]);
      assert ([[c] + r[0]] + r[1..])[1..] == r[1..] && ([[c] + q[0]] + q[1..])[1..] == q[1..];
    }
  }

  function TrimRights(ls: seq<string>): (r: seq<string>)
    ensures |r| == |ls| && forall i | 0 <= i < |ls| :: r[i] == TrimRight(ls[i])
  {
    if ls == [] then [] else [TrimRight(ls[0])] + TrimRights(ls[1..])
  }

  lemma {:induction false} TrimRightCons(c: char, s: string)
    ensures TrimRight([c] + s) == if TrimRight(s) == [] then TrimRight([c]) else [c] + TrimRight(s)
    decreases |s|
  {
    if s == [] {
      assert [c] + s == [c];
    } else if IsWs(s[|s| - 1]) {
      assert ([c] + s)[..|s|] == [c] + s[..|s| - 1];
      TrimRightCons(c, s[..|s| - 1]);
    }
  }

  lemma TrimmedAlike(s: string)
    ensures TrimAll(Split(s)) == TrimAll(Lines(s))
  {
    SplitTrimsAlike(s);
    var a, b := Split(s), Lines(s);
    assert |a| == |TrimRights(a)| == |b|;
    forall i | 0 <= i < |a| ensures Trim(a[i]) == Trim(b[i]) {
      assert TrimRights(a)[i] == TrimRights(b)[i];
    }
  }

  // ---------------------------------------------------------------- rewriting lines

  datatype IpKind = NotIp | Loopback | Other

  /** The relay's public address and data port as text, the address and number parsers, and the
      signalling port used when nothing better is known. */
  datatype Gateway = Gateway(pub: string, port: string, ip: string -> IpKind, num: string -> Option<int>, target: int)

  const CAND := "a=candidate:"
  const CONN := "c=IN IP4 "
  const MEDIA := "m="
  const UFRAG := "a=ice-ufrag:"

  function Lower(c: char): char { if 'A' <= c <= 'Z' then (c as int + 32) as char else c }

  predicate FoldEq(t: string, w: string) { |t| == |w| && forall i | 0 <= i < |t| :: Lower(t[i]) == w[i] }

  /** A UDP host candidate line. */
  predicate HostCandidate(l: string) {
    && CAND <= l
    && var f := Fields(l);
       |f| >= 8 && FoldEq(f[2], "udp") && f[6] == "typ" && FoldEq(f[7], "host")
  }

  /** One whose address is of the given kind. */
  predicate Usable(l: string, g: Gateway, kind: IpKind) {
    HostCandidate(l) && g.ip(Fields(l)[4]) == kind
  }

  function First(ls: seq<string>, g: Gateway, kind: IpKind): Option<string> {
    if ls == [] then None else if Usable(ls[0], g, kind) then Some(ls[0]) else First(ls[1..], g, kind)
  }

  lemma {:induction false} FirstIsUsable(ls: seq<string>, g: Gateway, kind: IpKind)
    ensures First(ls, g, kind).Some? ==> Usable(First(ls, g, kind).value, g, kind) && First(ls, g, kind).value in ls
    ensures First(ls, g, kind).None? <==> forall i | 0 <= i < |ls| :: !Usable(ls[i], g, kind)
    decreases |ls|
  {
    if ls != [] && !Usable(ls[0], g, kind) {
      FirstIsUsable(ls[1..], g, kind);
      assert forall i | 1 <= i < |ls| :: ls[i] == ls[1..][i - 1];
    }
  }

  /** The first usable candidate, loopback addresses only as a last resort. */
  function Template(ls: seq<string>, g: Gateway): (t: Option<string>)
    ensures t.Some? ==> HostCandidate(t.value) && t.value in ls
  {
    FirstIsUsable(ls, g, Other);
    FirstIsUsable(ls, g, Loopback);
    var t := First(ls, g, Other);
    if t.Some? then t else First(ls, g, Loopback)
  }

  function Readdress(l: string, g: Gateway): string
    requires |Fields(l)| >= 6
  {
    Join(Fields(l)[4 := g.pub][5 := g.port], " ")
  }

  /** `rewriteMLinePort`. */
  function MLine(l: string, port: string): string {
    var f := Fields(l);
    if |f| < 2 then l else Join(f[1 := port], " ")
  }

  /** What becomes of a line that is no candidate. */
  function Fix(l: string, g: Gateway): string {
    if CONN <= l then CONN + g.pub else if MEDIA <= l then MLine(l, g.port) else l
  }

  /** The second pass over the trimmed lines. */
  function Rewrite(ls: seq<string>, g: Gateway, t: Option<string>, inserted: bool): seq<string>
    requires t.Some? ==> |Fields(t.value)| >= 6
  {
    if ls == [] then []
    else
      var l := ls[0];
      if !(CAND <= l) then [Fix(l, g)] + Rewrite(ls[1..], g, t, inserted)
      else if t.Some? then
        if inserted then Rewrite(ls[1..], g, t, true) else [Readdress(t.value, g)] + Rewrite(ls[1..], g, t, true)
      else [if |Fields(l)| >= 6 then Readdress(l, g) else l] + Rewrite(ls[1..], g, t, inserted)
  }

  function Trimmeds(sdp: string): seq<string> { TrimAll(Lines(sdp)) }

  /** `rewriteSDP`. */
  function RewriteSdp(sdp: string, g: Gateway): string {
    var ls := Trimmeds(sdp);
    Join(Rewrite(ls, g, Template(ls, g), false), Separator(sdp))
  }

  /** `extractIceUfrag`. */
  function FirstUfrag(ls: seq<string>): string {
    if ls == [] then [] else if UFRAG <= ls[0] then ls[0][|UFRAG|..] else FirstUfrag(ls[1..])
  }

  predicate NamesUfrag(l: string) { "a=ice-ufrag:" <= l }

  predicate NoUfrag(ls: seq<string>) { forall i | 0 <= i < |ls| :: !NamesUfrag(ls[i]) }

  predicate FirstNames(ls: seq<string>, i: nat) { i < |ls| && NamesUfrag(ls[i]) && NoUfrag(ls[..i]) }

  /** `u` stands on the first line that names one, or is empty without such a line. */
  ghost predicate UfragIs(ls: seq<string>, u: string) {
    && (forall i: nat {:trigger FirstNames(ls, i)} | FirstNames(ls, i) :: ls[i] == "a=ice-ufrag:" + u)
    && (NoUfrag(ls) ==> u == "")
  }

  lemma {:induction false} UfragAt(ls: seq<string>, i: nat)
    requires FirstNames(ls, i)
    ensures ls[i] == "a=ice-ufrag:" + FirstUfrag(ls)
    decreases i
  {
    if i > 0 {
      assert ls[..i][0] == ls[0] && ls[1..][..i - 1] == ls[..i][1..];
      UfragAt(ls[1..], i - 1);
    }
  }

  lemma {:induction false} UfragSays(ls: seq<string>)
    ensures UfragIs(ls, FirstUfrag(ls))
  {
    forall i: nat | FirstNames(ls, i) ensures ls[i] == "a=ice-ufrag:" + FirstUfrag(ls) { UfragAt(ls, i); }
    if NoUfrag(ls) { WithoutUfrag(ls); }
  }

  lemma {:induction false} WithoutUfrag(ls: seq<string>)
    requires NoUfrag(ls)
    ensures FirstUfrag(ls) == ""
  {
    if ls != [] {
      assert NoUfrag(ls[1..]);
      WithoutUfrag(ls[1..]);
    }
  }

  function Ufrag(sdp: string): string { FirstUfrag(TrimAll(Split(sdp))) }

  // ---------------------------------------------------------------- single lines

  predicate GoodGateway(g: Gateway) { IsToken(g.pub) && IsToken(g.port) }

  /** The one candidate that is left: the template with the public address and port in place. */
  predicate Presents(c: string, t: string, g: Gateway) {
    |Fields(t)| >= 8 && CAND <= c && Fields(c) == Fields(t)[4 := g.pub][5 := g.port]
  }

  lemma ReaddressShape(l: string, g: Gateway)
    requires GoodGateway(g) && CAND <= l && |Fields(l)| >= 6
    ensures var c := Readdress(l, g);
            PlainLine(c) && CAND <= c && Fields(c) == Fields(l)[4 := g.pub][5 := g.port] && Readdress(c, g) == c
  {
    CandWords(l);
    ReaddressFields(Fields(l), g);
  }

  lemma CandWords(l: string)
    requires CAND <= l
    ensures AllTokens(Fields(l)) && Fields(l) != [] && CAND <= Fields(l)[0]
  {
    FieldsAreTokens(l);
    FirstFieldPrefix(l, CAND);
  }

  /** The same on the words of the line. */
  lemma ReaddressFields(ws: seq<string>, g: Gateway)
    requires GoodGateway(g) && |ws| >= 6 && AllTokens(ws) && CAND <= ws[0]
    ensures var f := ws[4 := g.pub][5 := g.port];
            && PlainLine(Join(f, " ")) && CAND <= Join(f, " ") && Fields(Join(f, " ")) == f && f[4 := g.pub][5 := g.port] == f
  {
    var f := ws[4 := g.pub][5 := g.port];
    FieldsOfJoin(f);
    JoinShape(f);
    assert f[0] == ws[0];
  }

  lemma MLineShape(l: string, port: string)
    requires PlainLine(l) && MEDIA <= l && IsToken(port)
    ensures var c := MLine(l, port); PlainLine(c) && MEDIA <= c && MLine(c, port) == c
  {
    FieldsAreTokens(l);
    FirstFieldPrefix(l, MEDIA);
    if |Fields(l)| >= 2 {
      var f := Fields(l)[1 := port];
      FieldsOfJoin(f);
      JoinShape(f);
      assert f[1 := port] == f && f[0] == Fields(l)[0];
    }
  }

  lemma FixShape(l: string, g: Gateway)
    requires PlainLine(l) && GoodGateway(g) && !(CAND <= l)
    ensures var c := Fix(l, g);
            && PlainLine(c) && !(CAND <= c) && Fix(c, g) == c
            && (UFRAG <= c <==> UFRAG <= l) && (UFRAG <= l ==> c == l)
  {
    if CONN <= l {
      var c := CONN + g.pub;
      assert c[|c| - 1] == g.pub[|g.pub| - 1] && c[0] == 'c' && l[0] == 'c';
    } else if MEDIA <= l {
      MLineShape(l, g.port);
      assert l[0] == 'm' && MLine(l, g.port)[0] == 'm';
    }
  }

  // ---------------------------------------------------------------- all lines

  function Others(ls: seq<string>): seq<string> {
    if ls == [] then [] else (if CAND <= ls[0] then [] else [ls[0]]) + Others(ls[1..])
  }

  function Cands(ls: seq<string>): seq<string> {
    if ls == [] then [] else (if CAND <= ls[0] then [ls[0]] else []) + Cands(ls[1..])
  }

  function FixAll(ls: seq<string>, g: Gateway): seq<string> {
    if ls == [] then [] else [Fix(ls[0], g)] + FixAll(ls[1..], g)
  }

  /** How the line-wise functions see a line put in front. */
  lemma Cons(l: string, r: seq<string>, g: Gateway)
    ensures ([l] + r)[0] == l && ([l] + r)[1..] == r
    ensures Others([l] + r) == (if CAND <= l then Others(r) else [l] + Others(r))
    ensures Cands([l] + r) == (if CAND <= l then [l] + Cands(r) else Cands(r))
    ensures FixAll([l] + r, g) == [Fix(l, g)] + FixAll(r, g)
    ensures FirstUfrag([l] + r) == if UFRAG <= l then l[|UFRAG|..] else FirstUfrag(r)
  {
    assert ([l] + r)[1..] == r;
    assert [] + Others(r) == Others(r) && [] + Cands(r) == Cands(r);
  }

  ghost predicate Rewrites(ls: seq<string>, out: seq<string>, g: Gateway, c: string, inserted: bool) {
    && AllPlain(out)
    && Cands(out) == (if inserted || Cands(ls) == [] then [] else [c])
    && Others(out) == FixAll(Others(ls), g)
    && FirstUfrag(out) == FirstUfrag(ls)
    && FixAll(Others(out), g) == Others(out)
  }

  lemma PlainCons(l: string, r: seq<string>)
    requires PlainLine(l) && AllPlain(r)
    ensures AllPlain([l] + r)
  {
  }

  lemma CandIsNoUfrag(l: string)
    requires CAND <= l
    ensures !(UFRAG <= l)
  {
    assert l[2] == 'c';
  }

  lemma RewriteOther(l: string, r: seq<string>, out: seq<string>, g: Gateway, c: string, inserted: bool)
    requires PlainLine(l) && GoodGateway(g) && !(CAND <= l) && Rewrites(r, out, g, c, inserted)
    ensures Rewrites([l] + r, [Fix(l, g)] + out, g, c, inserted)
  {
    FixShape(l, g);
    Cons(l, r, g);
    Cons(Fix(l, g), out, g);
    Cons(l, Others(r), g);
    Cons(Fix(l, g), Others(out), g);
    PlainCons(Fix(l, g), out);
  }

  lemma RewriteCand(l: string, r: seq<string>, out: seq<string>, g: Gateway, c: string, inserted: bool)
    requires CAND <= l && CAND <= c && PlainLine(c) && Rewrites(r, out, g, c, true)
    ensures Rewrites([l] + r, if inserted then out else [c] + out, g, c, inserted)
  {
    CandIsNoUfrag(l);
    CandIsNoUfrag(c);
    Cons(l, r, g);
    Cons(c, out, g);
    PlainCons(c, out);
  }

  /** With a template: one candidate, every other line in order, the ufrag as it was. */
  lemma {:induction false} RewriteShape(ls: seq<string>, g: Gateway, t: string, inserted: bool)
    requires AllPlain(ls) && GoodGateway(g) && CAND <= t && |Fields(t)| >= 6
    ensures Rewrites(ls, Rewrite(ls, g, Some(t), inserted), g, Readdress(t, g), inserted)
    decreases |ls|
  {
    if ls != [] {
      assert PlainLine(ls[0]) && ls == [ls[0]] + ls[1..];
      if CAND <= ls[0] {
        RewriteShape(ls[1..], g, t, true);
        ReaddressShape(t, g);
        RewriteCand(ls[0], ls[1..], Rewrite(ls[1..], g, Some(t), true), g, Readdress(t, g), inserted);
      } else {
        RewriteShape(ls[1..], g, t, inserted);
        RewriteOther(ls[0], ls[1..], Rewrite(ls[1..], g, Some(t), inserted), g, Readdress(t, g), inserted);
      }
    }
  }

  /** Lines that are fixed already, with at most the one finished candidate, are left alone, whether
      that candidate serves as template again or not. */
  lemma {:induction false} RewriteStable(ls: seq<string>, g: Gateway, t: Option<string>, inserted: bool, c: string)
    requires FixAll(Others(ls), g) == Others(ls) && (Cands(ls) == [] || (Cands(ls) == [c] && !inserted))
    requires |Fields(c)| >= 6 && Readdress(c, g) == c && (t.Some? ==> t.value == c)
    ensures Rewrite(ls, g, t, inserted) == ls
    decreases |ls|
  {
    if ls != [] {
      var l, r := ls[0], ls[1..];
      assert ls == [l] + r;
      Cons(l, r, g);
      if CAND <= l {
        assert Cands(ls)[0] == l && Cands(ls)[1..] == Cands(r);
        RewriteStable(r, g, t, t.Some?, c);
      } else {
        Cons(l, Others(r), g);
        assert FixAll(Others(ls), g)[1..] == FixAll(Others(r), g) && Others(ls)[1..] == Others(r);
        RewriteStable(r, g, t, inserted, c);
      }
    }
  }

  lemma {:induction false} CandsHas(ls: seq<string>, l: string)
    ensures l in Cands(ls) <==> l in ls && CAND <= l
    decreases |ls|
  {
    if ls != [] {
      CandsHas(ls[1..], l);
      assert l in ls <==> l == ls[0] || l in ls[1..];
    }
  }

  /** What the whole rewrite's lines look like, given a usable candidate. */
  lemma ResultLines(sdp: string, g: Gateway) returns (out: seq<string>, c: string)
    requires GoodGateway(g) && Template(Trimmeds(sdp), g).Some?
    ensures out == Rewrite(Trimmeds(sdp), g, Template(Trimmeds(sdp), g), false) && out != [] && AllPlain(out)
    ensures RewriteSdp(sdp, g) == Join(out, Separator(sdp)) && Trimmeds(RewriteSdp(sdp, g)) == out
    ensures Cands(out) == [c] && Presents(c, Template(Trimmeds(sdp), g).value, g) && Readdress(c, g) == c
    ensures Others(out) == FixAll(Others(Trimmeds(sdp)), g) && FixAll(Others(out), g) == Others(out)
    ensures FirstUfrag(out) == FirstUfrag(Trimmeds(sdp))
  {
    var ls := Trimmeds(sdp);
    TrimmedLinesPlain(Unify(sdp));
    var t := Template(ls, g).value;
    CandsHas(ls, t);
    out := Rewrite(ls, g, Some(t), false);
    c := Readdress(t, g);
    RewriteShape(ls, g, t, false);
    ReaddressShape(t, g);
    CandsHas(out, c);
    LinesOfJoin(out, Separator(sdp));
    TrimAllPlain(out);
  }

  /** Without a usable candidate: a plain line for each line, the ufrag as it was. */
  lemma {:induction false} UntemplatedShape(ls: seq<string>, g: Gateway)
    requires AllPlain(ls) && GoodGateway(g)
    ensures var out := Rewrite(ls, g, None, false);
            |out| == |ls| && AllPlain(out) && FirstUfrag(out) == FirstUfrag(ls)
    decreases |ls|
  {
    if ls != [] {
      var l, out := ls[0], Rewrite(ls[1..], g, None, false);
      assert PlainLine(l);
      UntemplatedShape(ls[1..], g);
      if CAND <= l {
        var c := if |Fields(l)| >= 6 then Readdress(l, g) else l;
        if |Fields(l)| >= 6 { ReaddressShape(l, g); }
        CandIsNoUfrag(l);
        CandIsNoUfrag(c);
        PlainCons(c, out);
      } else {
        FixShape(l, g);
        PlainCons(Fix(l, g), out);
      }
    }
  }

  /** The result of any rewrite comes apart into the lines it was put together from. */
  lemma PlainResult(sdp: string, g: Gateway) returns (out: seq<string>)
    requires GoodGateway(g)
    ensures out == Rewrite(Trimmeds(sdp), g, Template(Trimmeds(sdp), g), false) && out != [] && AllPlain(out)
    ensures RewriteSdp(sdp, g) == Join(out, Separator(sdp)) && Trimmeds(RewriteSdp(sdp, g)) == out
    ensures FirstUfrag(out) == FirstUfrag(Trimmeds(sdp))
  {
    var ls := Trimmeds(sdp);
    if Template(ls, g).Some? {
      var lines, _ := ResultLines(sdp, g);
      out := lines;
    } else {
      TrimmedLinesPlain(Unify(sdp));
      out := Rewrite(ls, g, None, false);
      UntemplatedShape(ls, g);
      LinesOfJoin(out, Separator(sdp));
      TrimAllPlain(out);
    }
  }

  lemma TrimAllPlain(ls: seq<string>)
    requires AllPlain(ls)
    ensures TrimAll(ls) == ls
  {
    forall i | 0 <= i < |ls| ensures Trim(ls[i]) == ls[i] {
      assert PlainLine(ls[i]);
      TrimShape(ls[i]);
    }
  }

  // ---------------------------------------------------------------- main results

  /** Rewriting twice is rewriting once, even when the public address is itself loopback or no
      literal address. */
  lemma Idempotent(sdp: string, g: Gateway)
    requires GoodGateway(g) && Template(Trimmeds(sdp), g).Some?
    ensures RewriteSdp(RewriteSdp(sdp, g), g) == RewriteSdp(sdp, g)
  {
    var out, c := ResultLines(sdp, g);
    var once := RewriteSdp(sdp, g);
    if Template(out, g).Some? {
      CandsHas(out, Template(out, g).value);
      assert Template(out, g).value in [c];
    }
    RewriteStable(out, g, Template(out, g), false, c);
    assert RewriteSdp(once, g) == Join(out, Separator(once));
    if |out| > 1 {
      EndingsKept(sdp, g);
    }
  }

  /** The line-ending style is the input's; a single line has none. */
  lemma EndingsKept(sdp: string, g: Gateway)
    requires GoodGateway(g)
    ensures HasCrlf(RewriteSdp(sdp, g)) <==> HasCrlf(sdp) && |Trimmeds(RewriteSdp(sdp, g))| > 1
  {
    var out := PlainResult(sdp, g);
    if HasCrlf(sdp) && |out| > 1 {
      CrlfOf(out);
    } else {
      NoCrlfOf(out);
      assert Join(out, Separator(sdp)) == Join(out, "\n");
    }
  }

  /** The routing key read from the rewritten answer is the one in the original. */
  lemma UfragKept(sdp: string, g: Gateway)
    requires GoodGateway(g)
    ensures Ufrag(RewriteSdp(sdp, g)) == Ufrag(sdp)
  {
    var out := PlainResult(sdp, g);
    TrimmedAlike(sdp);
    TrimmedAlike(RewriteSdp(sdp, g));
  }

  /** The usable candidate is needed: two candidates whose addresses do not parse are each given the
      public address, and a second rewrite then finds a template and keeps one. */
  lemma WithoutTemplateNotStable(l1: string, l2: string, g: Gateway)
    requires GoodGateway(g) && g.ip(g.pub) == Other && HostCandidate(l1) && HostCandidate(l2)
    requires g.ip(Fields(l1)[4]) == NotIp && g.ip(Fields(l2)[4]) == NotIp
    ensures Template([l1, l2], g) == None
    ensures var once := Rewrite([l1, l2], g, None, false);
            |once| == 2 && Template(once, g).Some? && |Rewrite(once, g, Template(once, g), false)| == 1
  {
    FirstIsUsable([l1, l2], g, Other);
    FirstIsUsable([l1, l2], g, Loopback);
    var r1, r2 := Readdress(l1, g), Readdress(l2, g);
    ReaddressedUsable(l1, g);
    ReaddressedUsable(l2, g);
    RewriteTwo(l1, l2, g);
    assert First([r1, r2], g, Other) == Some(r1);
    CollapseTwo(r1, r2, g);
  }

  lemma ReaddressedUsable(l: string, g: Gateway)
    requires GoodGateway(g) && HostCandidate(l)
    ensures Usable(Readdress(l, g), g, g.ip(g.pub))
  {
    ReaddressShape(l, g);
  }

  lemma RewriteTwo(l1: string, l2: string, g: Gateway)
    requires HostCandidate(l1) && HostCandidate(l2)
    ensures Rewrite([l1, l2], g, None, false) == [Readdress(l1, g), Readdress(l2, g)]
  {
    assert [l1, l2][1..] == [l2] && [l2][1..] == [];
    assert Rewrite([l2], g, None, false) == [Readdress(l2, g)] + [];
  }

  lemma CollapseTwo(r1: string, r2: string, g: Gateway)
    requires HostCandidate(r1) && HostCandidate(r2)
    ensures |Rewrite([r1, r2], g, Some(r1), false)| == 1
  {
    assert [r1, r2][1..] == [r2] && [r2][1..] == [];
    assert Rewrite([r2], g, Some(r1), true) == [];
  }

  // ---------------------------------------------------------------- the backend's data port

  /** A port a host candidate states: a number other than 0. */
  function StatedPort(l: string, g: Gateway): int
    requires HostCandidate(l)
  {
    var n := g.num(Fields(l)[5]);
    if n.Some? then n.value else 0
  }

  /** `backendDataPort` over trimmed lines. */
  function DataPort(ls: seq<string>, g: Gateway, fallback: int): int {
    if ls == [] then (if fallback != 0 then fallback else g.target)
    else if !HostCandidate(ls[0]) || StatedPort(ls[0], g) == 0 then DataPort(ls[1..], g, fallback)
    else if g.ip(Fields(ls[0])[4]) == Other then StatedPort(ls[0], g)
    else DataPort(ls[1..], g, if fallback == 0 then StatedPort(ls[0], g) else fallback)
  }

  /** The first port that any host candidate states, or 0. */
  function FirstStated(ls: seq<string>, g: Gateway): int {
    if ls == [] then 0
    else if HostCandidate(ls[0]) && StatedPort(ls[0], g) != 0 then StatedPort(ls[0], g)
    else FirstStated(ls[1..], g)
  }

  /** What the loop finds: the port of the first candidate outside loopback if it states one; without
      such a candidate the first port stated at all; and nothing only if nothing is stated. */
  lemma {:induction false} DataPortIs(ls: seq<string>, g: Gateway, fallback: int)
    ensures var p, t := DataPort(ls, g, fallback), First(ls, g, Other);
            && (t.Some? && HostCandidate(t.value) && StatedPort(t.value, g) != 0 ==> p == StatedPort(t.value, g))
            && (t.None? ==> p == if fallback != 0 then fallback else if FirstStated(ls, g) != 0 then FirstStated(ls, g) else g.target)
            && (p == 0 <==> fallback == 0 && FirstStated(ls, g) == 0 && g.target == 0)
    decreases |ls|
  {
    if ls != [] && !(Usable(ls[0], g, Other) && StatedPort(ls[0], g) != 0) {
      DataPortIs(ls[1..], g, if fallback == 0 && HostCandidate(ls[0]) then StatedPort(ls[0], g) else fallback);
    }
  }

  /** For every answer with a usable candidate: the player's data goes to the port of the very candidate
      the answer keeps if and only if that one states a port and lies outside loopback or states the
      same as the first candidate that states any; or it states none, no other does, and there is no
      signalling port either. */
  lemma DataPortIsTemplates(ls: seq<string>, g: Gateway)
    requires Template(ls, g).Some?
    ensures var t := Template(ls, g).value;
            DataPort(ls, g, 0) == StatedPort(t, g) <==>
              if StatedPort(t, g) != 0 then g.ip(Fields(t)[4]) == Other || FirstStated(ls, g) == StatedPort(t, g)
              else FirstStated(ls, g) == 0 && g.target == 0
  {
    FirstIsUsable(ls, g, Other);
    FirstIsUsable(ls, g, Loopback);
    DataPortIs(ls, g, 0);
    if StatedPort(Template(ls, g).value, g) != 0 { StatedSomewhere(ls, Template(ls, g).value, g); }
  }

  /** They differ: a candidate whose address is a name stands before the only usable one, on loopback,
      and states another port; the answer keeps the loopback one and the data goes to the other. */
  lemma NamedCandidateTakesData(l1: string, l2: string, g: Gateway)
    requires HostCandidate(l1) && g.ip(Fields(l1)[4]) == NotIp && StatedPort(l1, g) != 0
    requires HostCandidate(l2) && g.ip(Fields(l2)[4]) == Loopback && StatedPort(l2, g) != StatedPort(l1, g)
    ensures Template([l1, l2], g) == Some(l2) && DataPort([l1, l2], g, 0) == StatedPort(l1, g)
  {
    assert [l1, l2][1..] == [l2] && [l2][1..] == [];
    FirstIsUsable([l1, l2], g, Other);
    DataPortIs([l1, l2], g, 0);
    assert First([l2], g, Loopback) == Some(l2);
  }

  lemma {:induction false} StatedSomewhere(ls: seq<string>, l: string, g: Gateway)
    requires l in ls && HostCandidate(l) && StatedPort(l, g) != 0
    ensures FirstStated(ls, g) != 0
    decreases |ls|
  {
    if l != ls[0] { StatedSomewhere(ls[1..], l, g); }
  }

  // ---------------------------------------------------------------- the loops

  method ChooseTemplate(ls: seq<string>, g: Gateway) returns (t: Option<string>)
    ensures t == Template(ls, g)
  {
    var template, loopback: Option<string> := None, None;
    var i := 0;
    while i < |ls|
      invariant i <= |ls|
      invariant First(ls, g, Other) == if template.Some? then template else First(ls[i..], g, Other)
      invariant First(ls, g, Loopback) == if loopback.Some? then loopback else First(ls[i..], g, Loopback)
    {
      var line := ls[i];
      assert ls[i..][1..] == ls[i + 1..];
      i := i + 1;
      if !(CAND <= line) {
        continue;
      }
      var fields := Fields(line);
      if |fields| < 8 || !FoldEq(fields[2], "udp") {
        continue;
      }
      if fields[6] != "typ" || !FoldEq(fields[7], "host") {
        continue;
      }
      var kind := g.ip(fields[4]);
      if kind.NotIp? {
        continue;
      }
      if kind.Loopback? {
        if loopback.None? {
          loopback := Some(line);
        }
        continue;
      }
      if template.None? {
        template := Some(line);
      }
    }
    t := if template.Some? then template else loopback;
  }

  /** One line of the second pass: what it adds to the result, and whether the candidate is in. */
  method RewriteLine(line: string, g: Gateway, t: Option<string>, inserted: bool, ghost rest: seq<string>)
    returns (add: seq<string>, done: bool)
    requires t.Some? ==> |Fields(t.value)| >= 6
    ensures Rewrite([line] + rest, g, t, inserted) == add + Rewrite(rest, g, t, done)
  {
    assert ([line] + rest)[0] == line && ([line] + rest)[1..] == rest;
    if CONN <= line {
      assert line[0] == 'c';
      return [CONN + g.pub], inserted;
    }
    if MEDIA <= line {
      assert line[0] == 'm';
      return [MLine(line, g.port)], inserted;
    }
    if CAND <= line {
      if t.Some? {
        if !inserted {
          return [Readdress(t.value, g)], true;
        }
        assert [] + Rewrite(rest, g, t, true) == Rewrite(rest, g, t, true);
        return [], true;
      }
      if |Fields(line)| >= 6 {
        return [Readdress(line, g)], inserted;
      }
    }
    return [line], inserted;
  }

  method RewriteLines(lines: seq<string>, g: Gateway, t: Option<string>) returns (result: seq<string>)
    requires t.Some? ==> |Fields(t.value)| >= 6
    ensures result == Rewrite(lines, g, t, false)
  {
    ghost var want := Rewrite(lines, g, t, false);
    assert lines[0..] == lines;
    result := [];
    var inserted := false;
    var i := 0;
    while i < |lines|
      invariant i <= |lines|
      invariant want == result + Rewrite(lines[i..], g, t, inserted)
    {
      SuffixStep(lines, i);
      var add;
      add, inserted := RewriteLine(lines[i], g, t, inserted, lines[i + 1..]);
      Assoc(result, add, Rewrite(lines[i + 1..], g, t, inserted));
      result := result + add;
      i := i + 1;
    }
    assert lines[i..] == [] && result + [] == result;
  }

  method ExtractIceUfrag(sdp: string) returns (u: string)
    ensures u == Ufrag(sdp) && UfragIs(TrimAll(Split(sdp)), u)
  {
    var lines := Split(sdp);
    ghost var ls := TrimAll(lines);
    UfragSays(ls);
    var i := 0;
    while i < |lines|
      invariant i <= |lines| && FirstUfrag(ls) == FirstUfrag(ls[i..])
    {
      var line := Trim(lines[i]);
      assert ls[i..][0] == line && ls[i..][1..] == ls[i + 1..];
      if UFRAG <= line {
        return line[|UFRAG|..];
      }
      i := i + 1;
    }
    return "";
  }
}
