/** The HLS playlist rewriter (libs/videoutils/proxy.go and streamtoken.go; section 4 of RFC 8216 for the format).

    What the URL parser, the cryptography, the clock and the random source yield comes in through `Base` and
    `Minter`; a minter may answer differently for every line. */
module PlaylistRewrite {
  import opened Optional
  import opened Text
  import opened CodecFix
  import opened UrlEscape

  const URI := "URI=\""
  const MASKED := "/api/streaming/m/"
  const LEGACY := "/api/streaming/hls-proxy?url="

  /** The white space strings.TrimSpace removes. */
  predicate IsSpace(c: char) {
    || '\t' <= c <= '\r' || c == ' ' || c == '\U{85}' || c == '\U{A0}' || c == '\U{1680}' || '\U{2000}' <= c <= '\U{200A}'
    || c == '\U{2028}' || c == '\U{2029}' || c == '\U{202F}' || c == '\U{205F}' || c == '\U{3000}'
  }

  function TrimSpace(s: string): string { Trim(s, IsSpace) }

  // ----- where relative addresses resolve -----

  /** A parsed manifest URL. */
  datatype Base = Base(scheme: string, host: string, path: string) {
    function Origin(): string { scheme + "://" + host }

    function Dir(): string {
      Origin() + match LastSlash(path)
                 case Some(k) => if k > 0 then path[..k + 1] else "/"
                 case None => "/"
    }
  }

  /** Whether the directory, decoded once, parses as an address again: no control character before a fragment, and
      no malformed escape in the path or the fragment. */
  predicate Reparses(b: Base) { Parses(b.Dir()[|b.Origin()|..]) }

  predicate Parses(rest: string) {
    var address := Before(rest, '#');
    && (forall k :: 0 <= k < |address| ==> ' ' <= address[k] && address[k] != '\U{7F}')
    && PathUnescape(Before(address, '?')).Some?
    && (|address| < |rest| ==> PathUnescape(rest[|address| + 1..]).Some?)
  }

  function LastSlash(s: string): (r: Option<nat>)
    ensures r.Some? ==> r.value < |s| && s[r.value] == '/' && forall k :: r.value < k < |s| ==> s[k] != '/'
    ensures r.None? ==> '/' !in s
  {
    if s == "" then None
    else if s[|s| - 1] == '/' then Some(|s| - 1)
    else LastSlash(s[..|s| - 1])
  }

  /** The directory of the manifest: the rooted path up to its last slash. */
  lemma DirIsDirectory(b: Base)
    ensures b.Origin() <= b.Dir()
    ensures var d := b.Dir()[|b.Origin()|..];
            && d != "" && d[|d| - 1] == '/'
            && ("/" <= b.path ==> d <= b.path && '/' !in b.path[|d|..])
            && ('/' !in b.path ==> d == "/")
  {
    if "/" <= b.path {
      assert b.path[0] in b.path;
    }
  }

  function Absolute(b: Base, u: string): string {
    if "http://" <= u || "https://" <= u then u
    else if "/" <= u then b.Origin() + u
    else b.Dir() + u
  }

  /** The path up to and with its last slash; the root, if there is no slash behind the first character. */
  ghost predicate UpToLastSlash(path: string, dir: string) {
    || (dir <= path && 1 < |dir| && dir[|dir| - 1] == '/' && '/' !in path[|dir|..])
    || (dir == "/" && forall k :: 0 < k < |path| ==> path[k] != '/')
  }

  /** Where a line's address leads: a web address to itself; a root-relative one to the same place on the manifest's
      host; any other to the same place in the manifest's directory. */
  ghost predicate Resolves(b: Base, u: string, abs: string) {
    if "http://" <= u || "https://" <= u then abs == u
    else if "/" <= u then abs == b.scheme + "://" + b.host + u
    else exists dir: string :: UpToLastSlash(b.path, dir) && abs == b.scheme + "://" + b.host + dir + u
  }

  lemma OneDirectory(path: string, dir: string, other: string)
    requires UpToLastSlash(path, dir) && UpToLastSlash(path, other)
    ensures dir == other
  {
    NoneBehind(path, dir);
    NoneBehind(path, other);
    if dir <= path && other <= path {
      assert dir == path[..|dir|] && other == path[..|other|];
    }
  }

  lemma NoneBehind(path: string, dir: string)
    requires UpToLastSlash(path, dir)
    ensures forall k :: |dir| <= k < |path| ==> path[k] != '/'
  {
    if dir <= path && '/' !in path[|dir|..] {
      assert forall k :: |dir| <= k < |path| ==> path[k] == path[|dir|..][k - |dir|];
    }
  }

  lemma DirResolves(b: Base)
    ensures exists dir: string :: UpToLastSlash(b.path, dir) && b.Dir() == b.scheme + "://" + b.host + dir
  {
    var dir := b.Dir()[|b.Origin()|..];
    assert b.Dir() == b.Origin() + dir;
    assert UpToLastSlash(b.path, dir);
  }

  /** An address leads to one place. */
  lemma ResolvesOnce(b: Base, u: string, abs: string)
    ensures Resolves(b, u, abs) <==> abs == Absolute(b, u)
  {
    hide UpToLastSlash, b.Dir;
    assert "/" <= u ==> u[0] == '/';
    if !("http://" <= u || "https://" <= u) && !("/" <= u) {
      DirResolves(b);
      var d: string :| UpToLastSlash(b.path, d) && b.Dir() == b.scheme + "://" + b.host + d;
      forall dir: string | UpToLastSlash(b.path, dir) ensures dir == d {
        OneDirectory(b.path, dir, d);
      }
    }
  }

  /** Resolving yields the one web address the line leads to; it ends in what the line says, and resolving it again
      changes nothing. */
  lemma AbsoluteIsAbsolute(b: Base, u: string)
    requires b.scheme == "http" || b.scheme == "https"
    ensures var a := Absolute(b, u);
            && (forall abs :: Resolves(b, u, abs) <==> abs == a)
            && Absolute(b, a) == a && ("http://" <= a || "https://" <= a)
            && |u| <= |a| && a[|a| - |u|..] == u && (a != u ==> b.Origin() <= a)
  {
    forall abs {
      ResolvesOnce(b, u, abs);
    }
    hide Resolves;
    assert "http://" == "http" + "://" && "https://" == "https" + "://";
    var a, origin := Absolute(b, u), b.Origin();
    if a != u {
      assert b.scheme + "://" <= origin;
      assert origin <= b.Dir();
      assert origin <= a;
    }
  }

  // ----- the last path segment, decoded -----

  function Before(s: string, c: char): string {
    match IndexOf(s, [c])
    case None => s
    case Some(i) => s[..i]
  }

  /** The path of an absolute address, still encoded. */
  function PathOf(u: string): string {
    var bare := Before(Before(u, '#'), '?');
    match IndexOf(bare, "://")
    case None => ""
    case Some(i) =>
      var rest := bare[i + 3..];
      match IndexOf(rest, "/")
      case None => ""
      case Some(j) => rest[j..]
  }

  const SLASH: Byte := 0x2F

  function AfterSlash(bytes: seq<Byte>): (r: seq<Byte>)
    ensures SLASH !in r && |r| <= |bytes| && r == bytes[|bytes| - |r|..]
    ensures |r| < |bytes| ==> bytes[|bytes| - |r| - 1] == SLASH
  {
    if bytes == [] || bytes[|bytes| - 1] == SLASH then []
    else AfterSlash(bytes[..|bytes| - 1]) + [bytes[|bytes| - 1]]
  }

  /** The decoded last segment; empty where there is none, or the path has a malformed escape. */
  function LastSegment(u: string): seq<Byte> {
    match PathUnescape(PathOf(u))
    case None => []
    case Some(bytes) => AfterSlash(bytes)
  }

  // ----- the proxy's own addresses -----

  predicate AlreadyProxied(u: string) {
    || Contains(u, "/api/streaming/hls-proxy")
    || Contains(u, "%2Fapi%2Fstreaming%2Fhls-proxy")
    || Contains(u, "hls-proxy")
    || Contains(u, "/api/streaming/m/")
  }

  /** One of the two forms the proxy's addresses take. */
  predicate ProxyPath(u: string) { MASKED <= u || LEGACY <= u }

  lemma ProxyPathReads(u: string)
    ensures ProxyPath(u) <==>
            exists rest: string :: u == "/api/streaming/m/" + rest || u == "/api/streaming/hls-proxy?url=" + rest
  {
    if MASKED <= u {
      assert u == MASKED + u[|MASKED|..];
    } else if LEGACY <= u {
      assert u == LEGACY + u[|LEGACY|..];
    }
  }

  /** An address that passes for one of the proxy's and has neither form. */
  predicate Stray(u: string) { AlreadyProxied(u) && !ProxyPath(u) }

  /** Unpadded base64url, hexadecimal or decimal. */
  predicate TokenText(s: string) {
    forall k :: 0 <= k < |s| ==> 'a' <= s[k] <= 'z' || 'A' <= s[k] <= 'Z' || '0' <= s[k] <= '9' || s[k] == '-' || s[k] == '_'
  }

  /** What sealing, signing and parsing yield for the `n`-th line: `token` is "" where no token is minted; `leaf` is
      the decoded last path segment, "" where there is none. */
  datatype Minter = Minter(token: (nat, string) -> string, sign: (nat, string) -> (string, string), leaf: string -> seq<Byte>,
                           sess: string, referer: string)
  {
    ghost predicate Valid() {
      && TokenText(sess)
      && forall n: nat, u: string :: TokenText(token(n, u)) && TokenText(sign(n, u).0) && TokenText(sign(n, u).1)
    }

    function Leaf(abs: string): string {
      if leaf(abs) == [] then "media" else PathEscape(leaf(abs))
    }

    function Masked(n: nat, abs: string): string {
      MASKED + token(n, abs) + ("/" + Leaf(abs) + if sess == "" then "" else "?sess=" + sess)
    }

    function LegacyTail(n: nat, abs: string): string {
      "&exp=" + sign(n, abs).0 + "&sig=" + sign(n, abs).1 + if sess == "" then "" else "&sess=" + sess
    }

    function Legacy(n: nat, abs: string): string {
      LEGACY + QueryEscape(abs) + ((if referer == "" then "" else "&referer=" + QueryEscape(referer)) + LegacyTail(n, abs))
    }

    function Wrap(n: nat, abs: string): string {
      if token(n, abs) != "" then Masked(n, abs) else Legacy(n, abs)
    }
  }

  function RewriteUrl(b: Base, m: Minter, n: nat, u: string): string {
    if AlreadyProxied(u) then u else m.Wrap(n, Absolute(b, u))
  }

  /** With the second parse of the directory, which a root-relative address needs; None where its failure is
      dereferenced. */
  function RewriteUrlParsed(b: Base, m: Minter, n: nat, u: string): Option<string> {
    if AlreadyProxied(u) then Some(u)
    else if "http://" <= u || "https://" <= u then Some(m.Wrap(n, u))
    else if "/" <= u then (if Reparses(b) then Some(m.Wrap(n, b.Origin() + u)) else None)
    else Some(m.Wrap(n, b.Dir() + u))
  }

  // ----- one line -----

  /** The bounds of the first closed `URI="..."` value. */
  function AttributeAt(line: string): (r: Option<(nat, nat)>)
    ensures r.Some? ==> 5 <= r.value.0 <= r.value.1 < |line|
  {
    match IndexOf(line, URI)
    case None => None
    case Some(i) =>
      match IndexOf(line[i + 5..], "\"")
      case None => None
      case Some(e) => Some((i + 5, i + 5 + e))
  }

  function RewriteAttribute(b: Base, m: Minter, n: nat, line: string): string {
    match AttributeAt(line)
    case None => line
    case Some(at) => line[..at.0] + RewriteUrl(b, m, n, line[at.0..at.1]) + line[at.1..]
  }

  function RewriteLine(b: Base, m: Minter, n: nat, line: string): string {
    var trimmed := TrimSpace(line);
    if trimmed == "" || ("#" <= trimmed && !Contains(trimmed, URI)) then line
    else if Contains(trimmed, URI) then RewriteAttribute(b, m, n, line)
    else if !("#" <= trimmed) then RewriteUrl(b, m, n, trimmed)
    else line
  }

  function RewriteAttributeParsed(b: Base, m: Minter, n: nat, line: string): Option<string> {
    match AttributeAt(line)
    case None => Some(line)
    case Some(at) =>
      var w := RewriteUrlParsed(b, m, n, line[at.0..at.1]);
      if w.None? then None else Some(line[..at.0] + w.value + line[at.1..])
  }

  function RewriteLineParsed(b: Base, m: Minter, n: nat, line: string): Option<string> {
    var trimmed := TrimSpace(line);
    if trimmed == "" || ("#" <= trimmed && !Contains(trimmed, URI)) then Some(line)
    else if Contains(trimmed, URI) then RewriteAttributeParsed(b, m, n, line)
    else if !("#" <= trimmed) then RewriteUrlParsed(b, m, n, trimmed)
    else Some(line)
  }

  function RewriteLines(b: Base, m: Minter, lines: seq<string>): seq<string> {
    seq(|lines|, k requires 0 <= k < |lines| => RewriteLine(b, m, k, lines[k]))
  }

  function Rewrite(content: string, base: Option<Base>, m: Minter): string {
    match base
    case None => FixCodec(content)
    case Some(b) => Join(RewriteLines(b, m, Lines(FixCodec(content))), "\n")
  }

  // ----- what a line carries -----

  /** No address; an address line, without the white space around it; or a tag with a closed URI attribute. */
  datatype Carried = Nothing | Address(url: string) | InTag(before: string, url: string, after: string)

  function Carries(line: string): Carried {
    if Contains(line, URI) then
      match AttributeAt(line)
      case None => Nothing
      case Some(at) => InTag(line[..at.0], line[at.0..at.1], line[at.1..])
    else
      var trimmed := TrimSpace(line);
      if trimmed == "" || "#" <= trimmed then Nothing else Address(trimmed)
  }

  function Rerouted(b: Base, m: Minter, n: nat, c: Carried): Carried {
    if c.Nothing? then c else c.(url := RewriteUrl(b, m, n, c.url))
  }

  /** A root-relative address under a directory that does not parse again. */
  predicate Dereferences(b: Base, line: string) {
    var c := Carries(line);
    !c.Nothing? && !AlreadyProxied(c.url) && "/" <= c.url && !Reparses(b)
  }

  lemma UrlParsed(b: Base, m: Minter, n: nat, u: string)
    ensures RewriteUrlParsed(b, m, n, u)
            == if !AlreadyProxied(u) && "/" <= u && !Reparses(b) then None else Some(RewriteUrl(b, m, n, u))
  {
    hide AlreadyProxied, Reparses, b.Dir, b.Origin, m.Wrap;
    assert "/" <= u ==> u[0] == '/';
  }

  lemma LineParsed(b: Base, m: Minter, n: nat, line: string)
    ensures RewriteLineParsed(b, m, n, line) == if Dereferences(b, line) then None else Some(RewriteLine(b, m, n, line))
  {
    hide Contains, IndexOf, AttributeAt, IsSpace, Trim, AlreadyProxied, Reparses, RewriteUrl, RewriteUrlParsed;
    UriSpaceless();
    TrimKeeps(line, URI, IsSpace);
    if Contains(line, URI) {
      ContainsSomething(TrimSpace(line), URI);
    }
    if !Carries(line).Nothing? {
      UrlParsed(b, m, n, Carries(line).url);
    }
  }

  /** None stands for the nil dereference. */
  method RewriteM3U8(content: string, base: Option<Base>, m: Minter) returns (r: Option<string>)
    ensures r.None? <==> base.Some? && exists line :: line in Lines(FixCodec(content)) && Dereferences(base.value, line)
    ensures r.Some? ==> r.value == Rewrite(content, base, m)
    ensures base.None? ==> r == Some(FixCodec(content))
    ensures r.Some? && base.Some? && m.Valid() ==>
              var before, after := Lines(content), Lines(r.value);
              |after| == |before|
              && forall k :: 0 <= k < |before| ==> Led(base.value, m, k, Carries(FixCodec(before[k])), Carries(after[k]))
  {
    hide Led, Carries, m.Valid;
    hide FixCodec, Split, RewriteLine, RewriteLineParsed, Contains, IndexOf, Dereferences;
    var text := content;
    if Contains(text, AAC_MAIN) {
      text := FixCodec(text);
    } else {
      FixCodecKeeps(text);
    }
    if base.None? {
      return Some(text);
    }
    var lines := Lines(text);
    ghost var rewritten := RewriteLines(base.value, m, lines);
    var result := "";
    for k := 0 to |lines|
      invariant result == if k == 0 then "" else Join(rewritten[..k], "\n") + "\n"
      invariant forall j :: 0 <= j < k ==> !Dereferences(base.value, lines[j])
    {
      LineParsed(base.value, m, k, lines[k]);
      var line := RewriteLineParsed(base.value, m, k, lines[k]);
      if line.None? {
        return None;
      }
      if k > 0 {
        JoinAppend(rewritten[..k], line.value, "\n");
      }
      assert rewritten[..k + 1] == rewritten[..k] + [line.value];
      result := result + line.value + "\n";
    }
    assert rewritten[..|lines|] == rewritten;
    if m.Valid() {
      PlaylistLed(content, base.value, m);
    }
    return Some(result[..|result| - 1]);
  }

  // ----- the proxy's addresses are clean and recognised -----

  lemma CleanConcat(s: string, t: string)
    ensures Clean(s + t) == (Clean(s) && Clean(t))
  {
    if Clean(s + t) {
      assert forall k :: 0 <= k < |s| ==> (s + t)[k] == s[k];
      assert forall k :: 0 <= k < |t| ==> (s + t)[|s| + k] == t[k];
    }
  }

  lemma CodesFaithful()
    ensures FaithfulCode(QueryChar) && FaithfulCode(PathChar)
  {
    hide QueryChar, PathChar, Faithful;
    forall c ensures Faithful(c, QueryChar(c)) && Faithful(c, PathChar(c)) {
      CharsFaithful(c);
    }
  }

  lemma EncodedClean(s: string)
    ensures Clean(QueryEscape(s))
  {
    hide Clean, FaithfulCode, Escape;
    CodesFaithful();
    EscapeClean(s, QueryChar);
  }

  lemma EncodedLeafClean(bytes: seq<Byte>)
    ensures Clean(PathEscape(bytes))
  {
    hide Clean, FaithfulCode, Escape;
    CodesFaithful();
    EscapeClean(AsText(bytes), PathChar);
  }

  lemma MaskedClean(m: Minter, n: nat, abs: string)
    requires m.Valid()
    ensures Clean(m.Masked(n, abs))
  {
    hide QueryEscape, PathEscape;
    EncodedLeafClean(m.leaf(abs));
    assert TokenText(m.token(n, abs));
  }

  lemma LegacyClean(m: Minter, n: nat, abs: string)
    requires m.Valid()
    ensures Clean(m.Legacy(n, abs))
  {
    hide QueryEscape, Clean;
    EncodedClean(abs);
    EncodedClean(m.referer);
    var tail := m.LegacyTail(n, abs);
    LegacyTailText(m, n, abs);
    assert Clean(LEGACY) && Clean("&referer=") && Clean("") by { LegacyLiterals(); }
    var referer := if m.referer == "" then "" else "&referer=" + QueryEscape(m.referer);
    CleanConcat("&referer=", QueryEscape(m.referer));
    CleanConcat(referer, tail);
    CleanConcat(LEGACY, QueryEscape(abs));
    CleanConcat(LEGACY + QueryEscape(abs), referer + tail);
  }

  lemma LegacyLiterals()
    ensures Clean(LEGACY) && Clean("&referer=") && Clean("")
  {
  }

  lemma TokenClean(s: string)
    requires TokenText(s)
    ensures Clean(s) && '.' !in s
  {
  }

  lemma LegacyTailText(m: Minter, n: nat, abs: string)
    requires m.Valid()
    ensures Clean(m.LegacyTail(n, abs)) && '.' !in m.LegacyTail(n, abs) && "&" <= m.LegacyTail(n, abs)
  {
    var (exp, sig) := m.sign(n, abs);
    assert TokenText(m.sign(n, abs).0);
    TokenClean(exp);
    TokenClean(sig);
    TokenClean(m.sess);
    TailLiterals();
    hide TokenText, Clean;
    var sess := if m.sess == "" then "" else "&sess=" + m.sess;
    CleanConcat("&sess=", m.sess);
    CleanConcat("&sig=", sig);
    CleanConcat("&exp=", exp);
    CleanConcat("&sig=" + sig, sess);
    var back := "&sig=" + sig + sess;
    CleanConcat("&exp=" + exp, back);
    assert m.LegacyTail(n, abs) == "&exp=" + exp + back;
    assert '.' !in "&exp=" && '.' !in "&sig=" && '.' !in sess;
  }

  lemma TailLiterals()
    ensures Clean("&exp=") && Clean("&sig=") && Clean("&sess=") && Clean("")
  {
  }

  /** The proxy's own addresses are never taken for anyone else's. */
  lemma ProxyPathSkipped(u: string)
    requires ProxyPath(u)
    ensures AlreadyProxied(u)
  {
    hide Contains;
    if MASKED <= u {
      ContainsAt(u, "/api/streaming/m/", 0);
    } else {
      assert u[0..24] == LEGACY[0..24] == "/api/streaming/hls-proxy";
      ContainsAt(u, "/api/streaming/hls-proxy", 0);
    }
  }

  /** Whichever form it takes, a rewritten address is a single clean word, is the proxy's, and is recognised as such. */
  lemma WrapRecognised(m: Minter, n: nat, abs: string)
    requires m.Valid()
    ensures var w := m.Wrap(n, abs); Clean(w) && ProxyPath(w) && AlreadyProxied(w)
  {
    hide Clean, AlreadyProxied, QueryEscape;
    if m.token(n, abs) != "" {
      MaskedClean(m, n, abs);
    } else {
      LegacyClean(m, n, abs);
    }
    ProxyPathSkipped(m.Wrap(n, abs));
  }

  /** An address comes out as the proxy's exactly when it is not a stray. */
  lemma RoutedIff(b: Base, m: Minter, n: nat, u: string)
    requires m.Valid()
    ensures ProxyPath(RewriteUrl(b, m, n, u)) <==> !Stray(u)
    ensures Stray(u) ==> RewriteUrl(b, m, n, u) == u
  {
    hide AlreadyProxied, ProxyPath;
    if !AlreadyProxied(u) {
      WrapRecognised(m, n, Absolute(b, u));
    }
  }

  /** The query form carries the address: its first parameter ends at the first '&' and decodes to it. */
  lemma LegacyCarries(m: Minter, n: nat, abs: string)
    requires m.Valid()
    ensures var q := m.Legacy(n, abs); var i := IndexOf(q, "&");
            LEGACY <= q && i.Some? && |LEGACY| <= i.value
            && QueryUnescape(q[|LEGACY|..i.value]) == Some(Utf8All(abs))
  {
    hide QueryEscape, QueryUnescape, Utf8All;
    var q, e := m.Legacy(n, abs), QueryEscape(abs);
    QueryNoAmp(abs);
    QueryRoundTrip(abs);
    LegacyTailText(m, n, abs);
    var front := LEGACY + e;
    var more := q[|front|..];
    assert q == front + more && q[|LEGACY|..|front|] == e;
    assert '&' !in front by { assert '&' !in LEGACY; }
    assert more == (if m.referer == "" then "" else "&referer=" + QueryEscape(m.referer)) + m.LegacyTail(n, abs);
    FirstChar(front, more, '&');
  }

  /** A character that is new behind `front` is first met there. */
  lemma {:induction false} FirstChar(front: string, more: string, c: char)
    requires c !in front && more != "" && more[0] == c
    ensures IndexOf(front + more, [c]) == Some(|front|)
  {
    var s := front + more;
    assert s[|front|..|front| + 1] == [c];
    forall j: nat | j < |front| ensures !OccursAt(s, [c], j) {
      assert s[j..j + 1] == [front[j]] && front[j] in front;
    }
    FirstOccurrence(s, [c], |front|);
  }

  // ----- rewriting a line changes the address it carries and nothing else -----

  lemma UriSpaceless()
    ensures forall c :: c in URI ==> !IsSpace(c)
  {
  }

  /** What follows the opening of an attribute does not move it. */
  lemma {:induction false} OpeningKept(line: string, more: string)
    requires IndexOf(line, URI).Some?
    ensures var i := IndexOf(line, URI).value; i + 5 <= |line| && IndexOf(line[..i + 5] + more, URI) == Some(i)
  {
    hide OccursAt;
    var i := IndexOf(line, URI).value;
    FirstInPrefix(line, URI, i);
    IndexOfExtended(line[..i + 5], more, URI);
  }

  /** A quote-free text put between an opened attribute and its closing quote is what the attribute then holds. */
  lemma {:induction false} AttributeReplaced(line: string, w: string)
    requires AttributeAt(line).Some? && '"' !in w
    ensures var at := AttributeAt(line).value;
            var out := line[..at.0] + w + line[at.1..];
            AttributeAt(out) == Some((at.0, at.0 + |w|)) && Contains(out, URI)
  {
    hide OccursAt, IndexOf;
    var at := AttributeAt(line).value;
    var front, after := line[..at.0], line[at.1..];
    OpeningKept(line, w + after);
    var rest, e := line[at.0..], at.1 - at.0;
    QuoteAt(rest, e);
    assert after[0] == rest[e];
    FirstChar(w, after, '"');
    var out := front + w + after;
    assert out == front + (w + after);
    assert out[at.0..] == w + after;
  }

  lemma {:induction false} FirstInPrefix(s: string, pat: string, i: nat)
    requires IndexOf(s, pat) == Some(i)
    ensures i + |pat| <= |s| && IndexOf(s[..i + |pat|], pat) == Some(i)
  {
    var front, back := s[..i + |pat|], s[i + |pat|..];
    assert s == front + back;
    OccursInFront(front, back, pat, i);
    forall j: nat | j < i ensures !OccursAt(front, pat, j) {
      OccursInFront(front, back, pat, j);
    }
    FirstOccurrence(front, pat, i);
  }

  lemma QuoteAt(s: string, e: nat)
    requires OccursAt(s, "\"", e)
    ensures e < |s| && s[e] == '"'
  {
    assert s[e..e + 1][0] == s[e];
  }

  /** The value of an attribute holds no quote. */
  lemma {:induction false} AttributeQuoteless(line: string)
    requires AttributeAt(line).Some?
    ensures '"' !in line[AttributeAt(line).value.0..AttributeAt(line).value.1]
  {
    var at := AttributeAt(line).value;
    var rest, e := line[at.0..], at.1 - at.0;
    var url := line[at.0..at.1];
    assert url == rest[..e];
    if '"' in url {
      var j: nat :| j < |url| && url[j] == '"';
      assert rest[j..j + 1] == "\"";
      assert OccursAt(rest, "\"", j);
    }
  }

  lemma RewriteUrlWord(b: Base, m: Minter, n: nat, u: string, c: char)
    requires m.Valid() && c !in u && !CleanChar(c)
    ensures AlreadyProxied(RewriteUrl(b, m, n, u)) && c !in RewriteUrl(b, m, n, u)
  {
    hide AlreadyProxied;
    if !AlreadyProxied(u) {
      WrapRecognised(m, n, Absolute(b, u));
    }
  }

  lemma {:induction false} RewriteInTag(b: Base, m: Minter, n: nat, line: string)
    requires m.Valid() && Carries(line).InTag?
    ensures Carries(RewriteLine(b, m, n, line)) == Rerouted(b, m, n, Carries(line))
    ensures AlreadyProxied(Carries(RewriteLine(b, m, n, line)).url)
  {
    hide Contains, IndexOf, AttributeAt, IsSpace, AlreadyProxied, RewriteUrl;
    UriSpaceless();
    TrimKeeps(line, URI, IsSpace);
    ContainsSomething(TrimSpace(line), URI);
    var at := AttributeAt(line).value;
    AttributeQuoteless(line);
    var u := line[at.0..at.1];
    RewriteUrlWord(b, m, n, u, '"');
    var w := RewriteUrl(b, m, n, u);
    AttributeReplaced(line, w);
    var out := line[..at.0] + w + line[at.1..];
    assert RewriteLine(b, m, n, line) == out;
    assert out[..at.0] == line[..at.0] && out[at.0..at.0 + |w|] == w && out[at.0 + |w|..] == line[at.1..];
  }

  lemma ContainsSomething(s: string, pat: string)
    requires Contains(s, pat) && pat != ""
    ensures s != ""
  {
  }

  lemma {:induction false} RewriteAddress(b: Base, m: Minter, n: nat, line: string)
    requires m.Valid() && Carries(line).Address?
    ensures RewriteLine(b, m, n, line) == RewriteUrl(b, m, n, Carries(line).url)
    ensures Carries(RewriteLine(b, m, n, line)) == Rerouted(b, m, n, Carries(line))
    ensures AlreadyProxied(Carries(RewriteLine(b, m, n, line)).url)
  {
    hide Contains, IndexOf, AttributeAt, IsSpace, AlreadyProxied, Trim, OccursAt;
    UriSpaceless();
    TrimKeeps(line, URI, IsSpace);
    var u := TrimSpace(line);
    TrimIsTrimmed(line, IsSpace);
    if AlreadyProxied(u) {
      TrimFixes(u, IsSpace);
    } else {
      var w := m.Wrap(n, Absolute(b, u));
      WrapRecognised(m, n, Absolute(b, u));
      WordCarries(w);
    }
  }

  /** A clean word that is no comment is an address line. */
  lemma WordCarries(w: string)
    requires Clean(w) && w != "" && w[0] != '#'
    ensures Carries(w) == Address(w)
  {
    hide Contains, IndexOf;
    MissingChar(w, URI, '"');
    TrimFixes(w, IsSpace);
  }

  /** A line that carries no address is left alone; any other then carries the rewritten one in its place, which is
      the proxy's exactly when the line's is no stray, and the text around it is untouched. */
  lemma LineRouted(b: Base, m: Minter, n: nat, line: string)
    requires m.Valid()
    ensures var out := RewriteLine(b, m, n, line);
            && (Carries(line).Nothing? ==> out == line)
            && Carries(out) == Rerouted(b, m, n, Carries(line))
            && (!Carries(line).Nothing? ==>
                  AlreadyProxied(Carries(out).url) && (ProxyPath(Carries(out).url) <==> !Stray(Carries(line).url)))
  {
    match Carries(line)
    case Nothing =>
      hide Contains, IndexOf, AttributeAt, IsSpace, Trim;
      UriSpaceless();
      TrimKeeps(line, URI, IsSpace);
    case Address(u) =>
      hide ProxyPath, Stray, AlreadyProxied;
      RewriteAddress(b, m, n, line);
      RoutedIff(b, m, n, u);
    case InTag(_, u, _) =>
      hide ProxyPath, Stray, AlreadyProxied;
      RewriteInTag(b, m, n, line);
      RoutedIff(b, m, n, u);
  }

  // ----- which directories parse again -----

  /** A directory taken apart at its first question mark and its first number sign parses exactly when no control
      character stands before the fragment and every escape of the path and of the fragment is well formed. */
  lemma {:induction false} ParsesIff(path: string, query: string, fragment: string)
    requires '?' !in path && '#' !in path + query && (query == "" || query[0] == '?') && (fragment == "" || fragment[0] == '#')
    ensures Parses(path + query + fragment) <==>
              && (forall c :: c in path + query ==> ' ' <= c && c != '\U{7F}')
              && WellEscaped(path) && (fragment != "" ==> WellEscaped(fragment[1..]))
  {
    hide PathUnescape, IndexOf, WellEscaped;
    var address := path + query;
    var rest := address + fragment;
    BeforeIs(address, fragment, '#');
    BeforeIs(path, query, '?');
    UnescapesIff(path);
    assert forall k :: 0 <= k < |address| ==> address[k] in address;
    if fragment != "" {
      assert rest[|address| + 1..] == fragment[1..];
      UnescapesIff(fragment[1..]);
    }
  }

  lemma {:induction false} BeforeIs(front: string, more: string, c: char)
    requires c !in front && (more == "" || more[0] == c)
    ensures Before(front + more, c) == front
  {
    hide IndexOf;
    if more == "" {
      assert front + more == front;
      BeforeNone(front, c);
    } else {
      FirstChar(front, more, c);
    }
  }

  /** The manifest's directory is what has to parse again. */
  lemma ReparsesIff(b: Base, dir: string)
    requires UpToLastSlash(b.path, dir)
    ensures Reparses(b) <==> Parses(dir)
  {
    hide Parses, b.Dir, UpToLastSlash;
    DirResolves(b);
    var d: string :| UpToLastSlash(b.path, d) && b.Dir() == b.scheme + "://" + b.host + d;
    OneDirectory(b.path, d, dir);
    assert b.Dir()[|b.Origin()|..] == dir;
  }

  // ----- where a rewritten line leads -----

  /** `w` is one of the proxy's addresses for `abs`: sealed into the `n`-th token, with the last segment for show; or
      as the first parameter of a query, with the referer, the signature and the session. */
  ghost predicate CarriedBy(m: Minter, n: nat, abs: string, w: string) {
    if m.token(n, abs) != "" then
      exists leaf: string ::
        && w == "/api/streaming/m/" + m.token(n, abs) + "/" + leaf + (if m.sess == "" then "" else "?sess=" + m.sess)
        && '/' !in leaf && '?' !in leaf
        && if m.leaf(abs) == [] then leaf == "media" else PathUnescape(leaf) == Some(m.leaf(abs))
    else
      exists url: string, from: string ::
        && w == "/api/streaming/hls-proxy?url=" + url + (if m.referer == "" then "" else "&referer=" + from)
                + "&exp=" + m.sign(n, abs).0 + "&sig=" + m.sign(n, abs).1 + (if m.sess == "" then "" else "&sess=" + m.sess)
        && '&' !in url && QueryUnescape(url) == Some(Utf8All(abs))
        && '&' !in from && QueryUnescape(from) == Some(Utf8All(m.referer))
  }

  lemma WrapCarries(m: Minter, n: nat, abs: string)
    requires m.Valid()
    ensures CarriedBy(m, n, abs, m.Wrap(n, abs))
  {
    hide QueryEscape, QueryUnescape, PathEscape, PathUnescape, Utf8All, m.Valid;
    if m.token(n, abs) != "" {
      var leaf := m.Leaf(abs);
      LeafText(m, abs);
      assert m.Wrap(n, abs) == "/api/streaming/m/" + m.token(n, abs) + "/" + leaf + (if m.sess == "" then "" else "?sess=" + m.sess);
    } else {
      var url, origin := QueryEscape(abs), QueryEscape(m.referer);
      QueryNoAmp(abs);
      QueryNoAmp(m.referer);
      QueryRoundTrip(abs);
      QueryRoundTrip(m.referer);
      LegacySpelled(m, n, abs);
    }
  }

  lemma LegacySpelled(m: Minter, n: nat, abs: string)
    ensures m.Legacy(n, abs)
            == "/api/streaming/hls-proxy?url=" + QueryEscape(abs) + (if m.referer == "" then "" else "&referer=" + QueryEscape(m.referer))
               + "&exp=" + m.sign(n, abs).0 + "&sig=" + m.sign(n, abs).1 + (if m.sess == "" then "" else "&sess=" + m.sess)
  {
    hide QueryEscape;
  }

  lemma LeafText(m: Minter, abs: string)
    ensures var leaf := m.Leaf(abs);
            && '/' !in leaf && '?' !in leaf
            && if m.leaf(abs) == [] then leaf == "media" else PathUnescape(leaf) == Some(m.leaf(abs))
  {
    hide PathEscape, PathUnescape;
    PathRoundTrip(m.leaf(abs));
    PathNoSlash(m.leaf(abs));
  }

  /** What a line carries once rewritten: the text around an address as it was, and an address that is not the proxy's
      own as one of the proxy's for the place it leads to. */
  ghost predicate Led(b: Base, m: Minter, n: nat, c: Carried, d: Carried) {
    match c
    case Nothing => d == Nothing
    case Address(u) => d.Address? && LedTo(b, m, n, u, d.url)
    case InTag(before, u, after) => d.InTag? && d.before == before && d.after == after && LedTo(b, m, n, u, d.url)
  }

  ghost predicate LedTo(b: Base, m: Minter, n: nat, u: string, w: string) {
    if Contains(u, "hls-proxy") || Contains(u, "/api/streaming/m/") then w == u
    else exists abs: string :: Resolves(b, u, abs) && CarriedBy(m, n, abs, w)
  }

  lemma UrlLed(b: Base, m: Minter, n: nat, u: string)
    requires m.Valid()
    ensures LedTo(b, m, n, u, RewriteUrl(b, m, n, u))
  {
    hide Contains, AlreadyProxied, Resolves, CarriedBy, m.Valid;
    ProxiedByName(u);
    ResolvesOnce(b, u, Absolute(b, u));
    WrapCarries(m, n, Absolute(b, u));
  }

  /** Line by line, over the manifest's scheme, host and path and the line alone: where every address of the result
      leads. */
  lemma PlaylistLed(content: string, b: Base, m: Minter)
    requires m.Valid()
    ensures var before, after := Lines(content), Lines(Rewrite(content, Some(b), m));
            |after| == |before|
            && forall k :: 0 <= k < |before| ==> Led(b, m, k, Carries(FixCodec(before[k])), Carries(after[k]))
  {
    hide FixCodec, Split, Rewrite, Carries, RewriteUrl, LedTo;
    LinesRewritten(content, b, m);
    var before, after := Lines(content), Lines(Rewrite(content, Some(b), m));
    forall k | 0 <= k < |before| ensures Led(b, m, k, Carries(FixCodec(before[k])), Carries(after[k])) {
      PlaylistRouted(content, b, m, k);
      var c := Carries(FixCodec(before[k]));
      if !c.Nothing? {
        UrlLed(b, m, k, c.url);
      }
    }
  }

  // ----- what a line carries, over its characters -----

  /** White space is what Unicode calls it. */
  lemma IsSpaceIff(c: char)
    ensures IsSpace(c) <==>
            c in "\t\n\U{0B}\U{0C}\r \U{85}\U{A0}\U{1680}\U{2028}\U{2029}\U{202F}\U{205F}\U{3000}"
            || c in "\U{2000}\U{2001}\U{2002}\U{2003}\U{2004}\U{2005}\U{2006}\U{2007}\U{2008}\U{2009}\U{200A}"
  {
  }

  /** A tag: the first opening of an attribute, and the first quote behind it. */
  lemma {:induction false} TagCarries(front: string, u: string, back: string)
    requires !Contains(front + "URI=", "URI=\"") && '"' !in u
    ensures Carries(front + "URI=\"" + u + "\"" + back) == InTag(front + "URI=\"", u, "\"" + back)
  {
    hide IndexOf, OccursAt;
    var before, after := front + "URI=\"", "\"" + back;
    var line := before + u + after;
    assert line == front + "URI=\"" + u + "\"" + back;
    OpensAt(front, u + after);
    assert line == front + URI + (u + after);
    FirstChar(u, after, '"');
    assert line[|front| + 5..] == u + after;
  }

  lemma {:induction false} OpensAt(front: string, more: string)
    requires !Contains(front + "URI=", "URI=\"")
    ensures IndexOf(front + URI + more, URI) == Some(|front|)
  {
    var s := front + URI + more;
    assert s[|front|..|front| + 5] == URI;
    var part, rest := front + "URI=", "\"" + more;
    assert s == part + rest;
    forall j: nat | j < |front| ensures !OccursAt(s, URI, j) {
      OccursInFront(part, rest, URI, j);
    }
    FirstOccurrence(s, URI, |front|);
  }

  /** An address line: the white space around it is no part of it. */
  lemma {:induction false} AddressCarries(left: string, u: string, right: string)
    requires (forall c :: c in left + right ==> IsSpace(c)) && u != "" && u[0] != '#'
    requires !IsSpace(u[0]) && !IsSpace(u[|u| - 1]) && !Contains(u, "URI=\"")
    ensures Carries(left + u + right) == Address(u)
  {
    hide IndexOf, IsSpace, Contains;
    var line := left + u + right;
    UriSpaceless();
    TrimKeeps(line, URI, IsSpace);
    TrimCuts(left, u, right);
  }

  /** A comment without an attribute, or white space alone, carries nothing. */
  lemma {:induction false} NothingCarried(left: string, u: string, right: string)
    requires (forall c :: c in left + right ==> IsSpace(c)) && !Contains(u, "URI=\"")
    requires u == "" || (u[0] == '#' && !IsSpace(u[|u| - 1]))
    ensures Carries(left + u + right) == Nothing
  {
    hide IndexOf, Contains;
    var line := left + u + right;
    UriSpaceless();
    TrimKeeps(line, URI, IsSpace);
    if u != "" {
      TrimCuts(left, u, right);
    } else {
      AllSpace(left + u + right);
    }
  }

  lemma {:induction false} TrimCuts(left: string, u: string, right: string)
    requires (forall c :: c in left + right ==> IsSpace(c)) && u != "" && !IsSpace(u[0]) && !IsSpace(u[|u| - 1])
    ensures TrimSpace(left + u + right) == u
    decreases |left| + |right|
  {
    hide IsSpace;
    var line := left + u + right;
    if left != "" {
      assert line[0] == left[0] && left[0] in left + right && line[1..] == left[1..] + u + right;
      assert forall c :: c in left[1..] + right ==> c in left + right;
      TrimCuts(left[1..], u, right);
    } else {
      assert line == u + right && line[0] == u[0];
      RightCuts(u, right);
    }
  }

  lemma {:induction false} RightCuts(u: string, right: string)
    requires (forall c :: c in right ==> IsSpace(c)) && u != "" && !IsSpace(u[|u| - 1])
    ensures TrimRight(u + right, IsSpace) == u
    decreases |right|
  {
    hide IsSpace;
    if right == "" {
      assert u + right == u;
    } else {
      var line := u + right;
      assert line[|line| - 1] == right[|right| - 1] && right[|right| - 1] in right;
      assert line[..|line| - 1] == u + right[..|right| - 1];
      RightCuts(u, right[..|right| - 1]);
    }
  }

  lemma {:induction false} AllSpace(s: string)
    requires forall c :: c in s ==> IsSpace(c)
    ensures TrimSpace(s) == ""
    decreases |s|
  {
    hide IsSpace;
    if s != "" {
      assert s[0] in s && forall c :: c in s[1..] ==> c in s;
      AllSpace(s[1..]);
    }
  }

  // ----- a second pass finds nothing to do -----

  /** Two of the four tests for the proxy's own addresses are covered by the others. */
  lemma ProxiedByName(u: string)
    ensures AlreadyProxied(u) <==> Contains(u, "hls-proxy") || Contains(u, "/api/streaming/m/")
  {
    hide Contains;
    if Contains(u, "/api/streaming/hls-proxy") {
      ContainsPart(u, "/api/streaming/hls-proxy", 15, 24);
      assert "/api/streaming/hls-proxy"[15..24] == "hls-proxy";
    }
    if Contains(u, "%2Fapi%2Fstreaming%2Fhls-proxy") {
      ContainsPart(u, "%2Fapi%2Fstreaming%2Fhls-proxy", 21, 30);
      assert "%2Fapi%2Fstreaming%2Fhls-proxy"[21..30] == "hls-proxy";
    }
  }

  /** What a pass leaves alone whatever the base and the minter. */
  predicate Settled(line: string) {
    match Carries(line)
    case Nothing => true
    case Address(u) => u == line && AlreadyProxied(u)
    case InTag(_, u, _) => AlreadyProxied(u)
  }

  lemma SettledKept(b: Base, m: Minter, n: nat, line: string)
    requires m.Valid() && Settled(line)
    ensures RewriteLine(b, m, n, line) == line
  {
    hide Contains, IndexOf, AttributeAt, IsSpace, Trim, AlreadyProxied;
    match Carries(line)
    case Nothing => LineRouted(b, m, n, line);
    case Address(u) => RewriteAddress(b, m, n, line);
    case InTag(_, _, _) =>
      UriSpaceless();
      TrimKeeps(line, URI, IsSpace);
      ContainsSomething(TrimSpace(line), URI);
      var at := AttributeAt(line).value;
      assert line == line[..at.0] + line[at.0..at.1] + line[at.1..];
  }

  /** One pass settles every line, and keeps it one line. */
  lemma RewriteSettles(b: Base, m: Minter, n: nat, line: string)
    requires m.Valid() && '\n' !in line
    ensures Settled(RewriteLine(b, m, n, line)) && '\n' !in RewriteLine(b, m, n, line)
  {
    hide Contains, IndexOf, AttributeAt, IsSpace, Trim, AlreadyProxied, RewriteUrl, RewriteLine;
    LineRouted(b, m, n, line);
    match Carries(line)
    case Nothing =>
    case Address(u) =>
      TrimWithout(line, '\n', IsSpace);
      RewriteUrlWord(b, m, n, u, '\n');
      RewriteAddress(b, m, n, line);
    case InTag(before, u, after) =>
      RewriteUrlWord(b, m, n, u, '\n');
      InTagWhole(RewriteLine(b, m, n, line));
  }

  lemma InTagWhole(line: string)
    requires Carries(line).InTag?
    ensures var c := Carries(line); line == c.before + c.url + c.after
  {
    hide Contains, AttributeAt;
    var at := AttributeAt(line).value;
    assert line == line[..at.0] + line[at.0..at.1] + line[at.1..];
  }

  lemma {:induction false} TrimLeftAlike(s: string, t: string)
    requires Alike(s, t)
    ensures Alike(TrimLeft(s, IsSpace), TrimLeft(t, IsSpace))
    decreases |s|
  {
    if s != "" && IsSpace(s[0]) {
      TrimLeftAlike(s[1..], t[1..]);
    }
  }

  lemma {:induction false} TrimRightAlike(s: string, t: string)
    requires Alike(s, t)
    ensures Alike(TrimRight(s, IsSpace), TrimRight(t, IsSpace))
    decreases |s|
  {
    if s != "" && IsSpace(s[|s| - 1]) {
      TrimRightAlike(s[..|s| - 1], t[..|t| - 1]);
    }
  }

  lemma ProxiedAlike(u: string, v: string)
    requires Alike(u, v)
    ensures AlreadyProxied(u) == AlreadyProxied(v)
  {
    hide Alike, IndexOf, AlreadyProxied;
    ProxiedByName(u);
    ProxiedByName(v);
    AlikeIndexOf(u, v, "hls-proxy");
    AlikeIndexOf(u, v, "/api/streaming/m/");
  }

  lemma AttributeAlike(s: string, t: string)
    requires Alike(s, t)
    ensures AttributeAt(s) == AttributeAt(t) && Contains(s, URI) == Contains(t, URI)
  {
    hide IndexOf;
    AlikeIndexOf(s, t, URI);
    if IndexOf(s, URI).Some? {
      var i := IndexOf(s, URI).value;
      AlikeIndexOf(s[i + 5..], t[i + 5..], "\"");
    }
  }

  /** The codec substitution does not unsettle a line. */
  lemma SettledAlike(s: string, t: string)
    requires Alike(s, t) && Settled(s)
    ensures Settled(t)
  {
    hide Contains, IndexOf, AttributeAt, IsSpace, AlreadyProxied, TrimLeft, TrimRight;
    AttributeAlike(s, t);
    if Contains(s, URI) {
      if AttributeAt(s).Some? {
        var at := AttributeAt(s).value;
        ProxiedAlike(s[at.0..at.1], t[at.0..at.1]);
      }
    } else {
      TrimLeftAlike(s, t);
      TrimRightAlike(TrimLeft(s, IsSpace), TrimLeft(t, IsSpace));
      var u, v := TrimSpace(s), TrimSpace(t);
      assert Alike(u, v);
      if u != "" && !("#" <= u) {
        ProxiedAlike(u, v);
        TrimLength(t, IsSpace);
      }
    }
  }

  lemma CutLast(s: string, c: char)
    requires s != "" && s[|s| - 1] == c
    ensures s == s[..|s| - 1] + [c]
  {
  }

  // ----- whole playlists -----

  /** The lines of the result are the lines of the input, each with its codec fixed and then rewritten: none is
      added, dropped, merged or moved. */
  lemma LinesRewritten(content: string, b: Base, m: Minter)
    requires m.Valid()
    ensures Lines(Rewrite(content, Some(b), m)) == RewriteLines(b, m, FixAll(Lines(content)))
    ensures |Lines(Rewrite(content, Some(b), m))| == |Lines(content)|
  {
    hide FixCodec, Split, Join, RewriteLine;
    FixCodecLines(content);
    var lines := Lines(FixCodec(content));
    var rewritten := RewriteLines(b, m, lines);
    SplitLinesHaveNone(FixCodec(content), '\n');
    forall k | 0 <= k < |rewritten| ensures '\n' !in rewritten[k] {
      RewriteSettles(b, m, k, lines[k]);
    }
    SplitJoin(rewritten, '\n');
  }

  /** A line without an address is kept, apart from its codec; an address comes out as the proxy's exactly when it
      is no stray; around it nothing changes. */
  lemma PlaylistRouted(content: string, b: Base, m: Minter, k: nat)
    requires m.Valid() && k < |Lines(content)|
    ensures |Lines(Rewrite(content, Some(b), m))| == |Lines(content)|
    ensures var line, out := FixCodec(Lines(content)[k]), Lines(Rewrite(content, Some(b), m))[k];
            && (Carries(line).Nothing? ==> out == line)
            && Carries(out) == Rerouted(b, m, k, Carries(line))
            && (!Carries(line).Nothing? ==> (ProxyPath(Carries(out).url) <==> !Stray(Carries(line).url)))
  {
    hide FixCodec, Split, Rewrite, RewriteLine, Carries, AlreadyProxied, Rerouted, ProxyPath, Stray;
    LinesRewritten(content, b, m);
    LineRouted(b, m, k, FixCodec(Lines(content)[k]));
  }

  /** The values of all closed URI attributes. */
  function Attributes(text: string): seq<string>
    decreases |text|
  {
    match AttributeAt(text)
    case None => []
    case Some(at) => [text[at.0..at.1]] + Attributes(text[at.1 + 1..])
  }

  /** Every address a line carries: a tag may have several attributes. */
  function Urls(line: string): seq<string> {
    match Carries(line)
    case Nothing => []
    case Address(u) => [u]
    case InTag(_, u, after) => [u] + if after == "" then [] else Attributes(after[1..])
  }

  /** One attribute after the other: what stands between an opening and the next quote, then on behind that quote. */
  lemma {:induction false} AttributesStep(front: string, u: string, back: string)
    requires !Contains(front + "URI=", "URI=\"") && '"' !in u
    ensures Attributes(front + "URI=\"" + u + "\"" + back) == [u] + Attributes(back)
  {
    hide IndexOf, OccursAt;
    var after := "\"" + back;
    var text := front + "URI=\"" + u + "\"" + back;
    OpensAt(front, u + after);
    assert text == front + URI + (u + after);
    FirstChar(u, after, '"');
    assert text[|front| + 5..] == u + after;
    var end := |front| + 5 + |u|;
    assert AttributeAt(text) == Some((|front| + 5, end));
    assert text[|front| + 5..end] == u && text[end + 1..] == back;
  }

  /** No opening, or none that is closed. */
  lemma {:induction false} NoAttributes(front: string, rest: string)
    requires !Contains(front + "URI=", "URI=\"") && '"' !in rest
    ensures Attributes(front + "URI=\"" + rest) == [] && Attributes(front) == []
  {
    hide IndexOf, OccursAt;
    OpensAt(front, rest);
    var text := front + "URI=\"" + rest;
    assert text == front + URI + rest && text[|front| + 5..] == rest;
    MissingChar(rest, "\"", '"');
    NoneInFront(front);
  }

  lemma {:induction false} NoneInFront(front: string)
    requires !Contains(front + "URI=", "URI=\"")
    ensures IndexOf(front, URI).None?
  {
    if IndexOf(front, URI).Some? {
      OccursInFront(front, "URI=", URI, IndexOf(front, URI).value);
    }
  }

  /** The addresses of a tag are the values of all its attributes. */
  lemma TagUrls(line: string)
    requires Contains(line, "URI=\"")
    ensures Urls(line) == Attributes(line)
  {
    hide Contains, IndexOf;
    if AttributeAt(line).Some? {
      var at := AttributeAt(line).value;
      assert line[at.1..][1..] == line[at.1 + 1..];
    }
  }

  predicate LeadsToProxy(line: string) { forall u :: u in Urls(line) ==> ProxyPath(u) }

  /** The first address passes for the proxy's and is not, or a later one of a tag is not the proxy's as it stands:
      only the first is looked at. */
  predicate Strays(line: string) {
    Urls(line) != [] && (Stray(Urls(line)[0]) || exists u :: u in Urls(line)[1..] && !ProxyPath(u))
  }

  /** Everything a player fetches from the result goes through the proxy exactly when no line strays. */
  lemma RoutedUnlessStray(content: string, b: Base, m: Minter)
    requires m.Valid()
    ensures (forall line :: line in Lines(Rewrite(content, Some(b), m)) ==> LeadsToProxy(line))
            <==> (forall line :: line in Lines(content) ==> !Strays(FixCodec(line)))
  {
    hide FixCodec, Split, Rewrite, Carries, RewriteUrl, ProxyPath, Stray, LeadsToProxy, Strays;
    LinesRewritten(content, b, m);
    var before, after := Lines(content), Lines(Rewrite(content, Some(b), m));
    forall k | 0 <= k < |before| ensures LeadsToProxy(after[k]) <==> !Strays(FixCodec(before[k])) {
      PlaylistRouted(content, b, m, k);
      LineLeads(b, m, k, FixCodec(before[k]), after[k]);
    }
    if exists line :: line in before && Strays(FixCodec(line)) {
      var k: nat :| k < |before| && Strays(FixCodec(before[k]));
      assert after[k] in after;
    }
  }

  lemma LineLeads(b: Base, m: Minter, n: nat, line: string, out: string)
    requires Carries(out) == Rerouted(b, m, n, Carries(line))
    requires !Carries(line).Nothing? ==> (ProxyPath(Carries(out).url) <==> !Stray(Carries(line).url))
    ensures LeadsToProxy(out) <==> !Strays(line)
  {
    hide Carries, RewriteUrl, ProxyPath, Stray, Attributes;
    if !Carries(line).Nothing? {
      assert Urls(out) == [Carries(out).url] + Urls(line)[1..];
      assert forall u :: u in Urls(out) <==> u == Carries(out).url || u in Urls(line)[1..];
    }
  }

  /** A playlist of one address that passes for the proxy's is left as it is. */
  lemma SkippedPlaylist(u: string, b: Base, m: Minter)
    requires m.Valid() && Clean(u) && u != "" && u[0] != '#' && !Contains(u, AAC_MAIN) && AlreadyProxied(u)
    ensures Rewrite(u, Some(b), m) == u && Carries(u) == Address(u)
  {
    hide FixCodec, Split, RewriteLine, Contains, IndexOf, AlreadyProxied;
    LoneLine(u);
    WordCarries(u);
    RewriteAddress(b, m, 0, u);
    assert RewriteLines(b, m, [u]) == [u];
  }

  const STRAY := "https://cdn.example/hls-proxy/1.ts"

  lemma StraySpelled()
    ensures Clean(STRAY) && STRAY[0] == 'h' && '4' !in STRAY && Contains(STRAY, "hls-proxy")
  {
    hide Contains;
    assert STRAY[20..29] == "hls-proxy";
    ContainsAt(STRAY, "hls-proxy", 20);
  }

  /** A stray: someone else's segment under a directory named like the proxy's route is handed to the player as it is. */
  lemma StrayIsHandedOut(b: Base, m: Minter)
    requires m.Valid()
    ensures Rewrite(STRAY, Some(b), m) == STRAY && !LeadsToProxy(STRAY)
  {
    hide Rewrite, Contains, IndexOf, Carries, Clean;
    StraySpelled();
    MissingChar(STRAY, AAC_MAIN, '4') by { assert AAC_MAIN[2] == '4'; }
    SkippedPlaylist(STRAY, b, m);
    assert STRAY in Urls(STRAY) && !ProxyPath(STRAY);
  }

  /** A second pass, with whatever base and minter, does nothing but substitute the codec in what the first one made. */
  lemma SecondPass(content: string, b: Base, m: Minter, base: Option<Base>, later: Minter)
    requires m.Valid() && later.Valid()
    ensures var once := Rewrite(content, Some(b), m); Rewrite(once, base, later) == FixCodec(once)
  {
    hide FixCodec, Split, Join, RewriteLine, Settled;
    var once := Rewrite(content, Some(b), m);
    if base.Some? {
      LinesRewritten(content, b, m);
      FixCodecLines(once);
      SplitLinesHaveNone(content, '\n');
      var lines := Lines(FixCodec(once));
      forall k | 0 <= k < |lines| ensures RewriteLine(base.value, later, k, lines[k]) == lines[k] {
        var line := FixCodec(Lines(content)[k]);
        FixCodecAlike(Lines(content)[k]);
        RewriteSettles(b, m, k, line);
        FixCodecAlike(Lines(once)[k]);
        SettledAlike(Lines(once)[k], lines[k]);
        SettledKept(base.value, later, k, lines[k]);
      }
      assert RewriteLines(base.value, later, lines) == lines;
      JoinSplit(FixCodec(once), "\n");
    }
  }

  // ----- when the codec comes back -----

  /** Whether the proxy's address for `abs` spells the codec. */
  predicate NoisyUrl(m: Minter, n: nat, abs: string) {
    if m.token(n, abs) != "" then Contains(AsText(m.leaf(abs)), AAC_MAIN)
    else Contains(abs, AAC_MAIN) || Contains(m.referer, AAC_MAIN)
  }

  predicate NoisyLine(b: Base, m: Minter, n: nat, line: string) {
    !Carries(line).Nothing? && !AlreadyProxied(Carries(line).url) && NoisyUrl(m, n, Absolute(b, Carries(line).url))
  }

  lemma AacPlain()
    ensures Plain(AAC_MAIN) && AAC_MAIN != "" && AAC_MAIN[0] == 'm' && '.' in AAC_MAIN
    ensures forall c :: c in "/?&=\"\n" ==> c !in AAC_MAIN
    ensures forall c :: c in AAC_MAIN ==> !IsSpace(c)
  {
    assert AAC_MAIN[4] == '.';
  }

  lemma EncodedNoise(s: string)
    ensures Contains(QueryEscape(s), AAC_MAIN) == Contains(s, AAC_MAIN)
  {
    hide FaithfulCode, Contains, Escape;
    CodesFaithful();
    AacPlain();
    EscapeContains(s, QueryChar, AAC_MAIN);
  }

  lemma EncodedLeafNoise(bytes: seq<Byte>)
    ensures Contains(PathEscape(bytes), AAC_MAIN) == Contains(AsText(bytes), AAC_MAIN)
  {
    hide FaithfulCode, Contains, Escape;
    CodesFaithful();
    AacPlain();
    EscapeContains(AsText(bytes), PathChar, AAC_MAIN);
  }

  lemma MaskedNoise(m: Minter, n: nat, abs: string)
    requires m.Valid()
    ensures Contains(m.Masked(n, abs), AAC_MAIN) == Contains(AsText(m.leaf(abs)), AAC_MAIN)
  {
    hide Contains, PathEscape;
    AacPlain();
    EncodedLeafNoise(m.leaf(abs));
    assert m.leaf(abs) == [] ==> AsText(m.leaf(abs)) == "";
    MissingChar("", AAC_MAIN, '.');
    MissingChar("media", AAC_MAIN, '.');
    var front := MASKED + m.token(n, abs);
    assert TokenText(m.token(n, abs));
    MissingChar(front, AAC_MAIN, '.');
    var leaf := m.Leaf(abs);
    if m.sess == "" {
      assert m.Masked(n, abs) == front + "/" + leaf;
      ContainsAround(front, '/', leaf, AAC_MAIN);
    } else {
      var sess := "sess=" + m.sess;
      MissingChar(sess, AAC_MAIN, '.');
      assert m.Masked(n, abs) == front + "/" + (leaf + "?" + sess);
      ContainsAround(front, '/', leaf + "?" + sess, AAC_MAIN);
      ContainsAround(leaf, '?', sess, AAC_MAIN);
    }
  }

  /** What follows an '&' counts on its own. */
  lemma ParameterNoise(a: string, more: string)
    requires "&" <= more
    ensures Contains(a + more, AAC_MAIN) == (Contains(a, AAC_MAIN) || Contains(more, AAC_MAIN))
  {
    hide Contains;
    AacPlain();
    MissingChar("", AAC_MAIN, '.');
    var rest := more[1..];
    assert more == "" + "&" + rest;
    ContainsAround("", '&', rest, AAC_MAIN);
    assert a + more == a + "&" + rest;
    ContainsAround(a, '&', rest, AAC_MAIN);
  }

  lemma RefererNoise(m: Minter, tail: string)
    requires "&" <= tail && !Contains(tail, AAC_MAIN)
    ensures var more := (if m.referer == "" then "" else "&referer=" + QueryEscape(m.referer)) + tail;
            "&" <= more && Contains(more, AAC_MAIN) == Contains(m.referer, AAC_MAIN)
  {
    hide Contains, QueryEscape;
    AacPlain();
    EncodedNoise(m.referer);
    MissingChar("", AAC_MAIN, '.');
    var q := QueryEscape(m.referer);
    if m.referer != "" {
      var more := "&referer=" + q + tail;
      MissingChar("&referer", AAC_MAIN, '.');
      assert more == "&referer" + "=" + (q + tail);
      ContainsAround("&referer", '=', q + tail, AAC_MAIN);
      ParameterNoise(q, tail);
    } else {
      assert "" + tail == tail;
    }
  }

  lemma LegacyNoise(m: Minter, n: nat, abs: string)
    requires m.Valid()
    ensures Contains(m.Legacy(n, abs), AAC_MAIN) == (Contains(abs, AAC_MAIN) || Contains(m.referer, AAC_MAIN))
  {
    hide Contains, QueryEscape, m.LegacyTail;
    AacPlain();
    EncodedNoise(abs);
    var tail := m.LegacyTail(n, abs);
    LegacyTailText(m, n, abs);
    MissingChar(tail, AAC_MAIN, '.');
    RefererNoise(m, tail);
    var more := (if m.referer == "" then "" else "&referer=" + QueryEscape(m.referer)) + tail;
    var front := "/api/streaming/hls-proxy?url";
    MissingChar(front, AAC_MAIN, '.');
    assert m.Legacy(n, abs) == front + "=" + (QueryEscape(abs) + more);
    ContainsAround(front, '=', QueryEscape(abs) + more, AAC_MAIN);
    ParameterNoise(QueryEscape(abs), more);
  }

  lemma LineNoise(b: Base, m: Minter, n: nat, line: string)
    requires m.Valid() && !Contains(line, AAC_MAIN)
    ensures Contains(RewriteLine(b, m, n, line), AAC_MAIN) == NoisyLine(b, m, n, line)
  {
    hide Contains, IndexOf, AttributeAt, IsSpace, Trim, AlreadyProxied, RewriteLine;
    AacPlain();
    LineRouted(b, m, n, line);
    var out := RewriteLine(b, m, n, line);
    match Carries(line)
    case Nothing =>
    case Address(u) =>
      RewriteAddress(b, m, n, line);
      TrimKeeps(line, AAC_MAIN, IsSpace);
      UrlNoise(b, m, n, u);
    case InTag(before, u, after) =>
      InTagWhole(line);
      InTagWhole(out);
      TagNoise(line, before, u, after);
      TagNoise(out, before, Carries(out).url, after);
      UrlNoise(b, m, n, u);
  }

  lemma UrlNoise(b: Base, m: Minter, n: nat, u: string)
    requires m.Valid() && !Contains(u, AAC_MAIN)
    ensures Contains(RewriteUrl(b, m, n, u), AAC_MAIN) == (!AlreadyProxied(u) && NoisyUrl(m, n, Absolute(b, u)))
  {
    hide Contains, AlreadyProxied;
    MaskedNoise(m, n, Absolute(b, u));
    LegacyNoise(m, n, Absolute(b, u));
  }

  /** The quotes keep an attribute's value apart from the tag. */
  lemma TagNoise(line: string, before: string, u: string, after: string)
    requires Carries(line) == InTag(before, u, after) && line == before + u + after
    ensures Contains(line, AAC_MAIN) == (Contains(before, AAC_MAIN) || Contains(u, AAC_MAIN) || Contains(after, AAC_MAIN))
  {
    hide Contains, IndexOf, Carries;
    AacPlain();
    MissingChar("", AAC_MAIN, '.');
    TagQuotes(line, before, u, after);
    var front, back := before[..|before| - 1], after[1..];
    assert before == front + "\"" + "" && after == "" + "\"" + back;
    ContainsAround(front, '"', "", AAC_MAIN);
    ContainsAround("", '"', back, AAC_MAIN);
    assert line == front + "\"" + (u + "\"" + back);
    ContainsAround(front, '"', u + "\"" + back, AAC_MAIN);
    ContainsAround(u, '"', back, AAC_MAIN);
  }

  lemma TagQuotes(line: string, before: string, u: string, after: string)
    requires Carries(line) == InTag(before, u, after)
    ensures before != "" && before[|before| - 1] == '"' && after != "" && after[0] == '"'
  {
    hide Contains, Trim;
    var at := AttributeAt(line).value;
    var i := IndexOf(line, URI).value;
    assert line[i..i + 5][4] == line[i + 4];
    QuoteAt(line[at.0..], at.1 - at.0);
  }

  /** Rewriting twice is rewriting once exactly when no rewritten line's proxy address spells the codec: in the
      masked form through the decoded last path segment, in the query form through the address or the referer. */
  lemma IdempotentIff(content: string, b: Base, m: Minter, later: Minter)
    requires m.Valid() && later.Valid()
    ensures var once := Rewrite(content, Some(b), m);
            Rewrite(once, Some(b), later) == once
            <==> forall k :: 0 <= k < |Lines(content)| ==> !NoisyLine(b, m, k, FixCodec(Lines(content)[k]))
  {
    hide FixCodec, Split, Join, RewriteLine, Contains, Rewrite, NoisyLine;
    var once := Rewrite(content, Some(b), m);
    SecondPass(content, b, m, Some(b), later);
    FixCodecKeeps(once);
    LinesRewritten(content, b, m);
    AacPlain();
    JoinSplit(once, "\n");
    JoinContains(Lines(once), '\n', AAC_MAIN);
    forall k | 0 <= k < |Lines(content)|
      ensures Contains(Lines(once)[k], AAC_MAIN) == NoisyLine(b, m, k, FixCodec(Lines(content)[k]))
    {
      FixCodecClears(Lines(content)[k]);
      LineNoise(b, m, k, FixCodec(Lines(content)[k]));
    }
  }

  lemma AbsoluteQuiet(b: Base, u: string)
    requires !Contains(u, AAC_MAIN) && !Contains(b.Dir(), AAC_MAIN)
    ensures !Contains(Absolute(b, u), AAC_MAIN)
  {
    hide Contains;
    AacPlain();
    var dir, origin := b.Dir(), b.Origin();
    assert dir[0..|origin|] == origin;
    PieceFree(dir, AAC_MAIN, 0, |origin|);
    if "http://" <= u || "https://" <= u {
    } else if "/" <= u {
      PieceFree(u, AAC_MAIN, 1, |u|);
      assert u[1..|u|] == u[1..];
      assert origin + u == origin + "/" + u[1..];
      ContainsAround(origin, '/', u[1..], AAC_MAIN);
    } else {
      assert dir[|dir| - 1] == '/';
      CutLast(dir, '/');
      PieceFree(dir, AAC_MAIN, 0, |dir| - 1);
      assert dir[0..|dir| - 1] == dir[..|dir| - 1];
      assert dir + u == dir[..|dir| - 1] + "/" + u;
      ContainsAround(dir[..|dir| - 1], '/', u, AAC_MAIN);
    }
  }

  /** With tokens disabled a base directory and a referer that do not spell the codec make rewriting idempotent. */
  lemma QuietBaseIsIdempotent(content: string, b: Base, m: Minter, later: Minter)
    requires m.Valid() && later.Valid()
    requires forall n: nat, u: string :: m.token(n, u) == ""
    requires !Contains(b.Dir(), AAC_MAIN) && !Contains(m.referer, AAC_MAIN)
    ensures var once := Rewrite(content, Some(b), m); Rewrite(once, Some(b), later) == once
  {
    hide FixCodec, Split, Rewrite, Contains, IndexOf, Carries;
    forall k | 0 <= k < |Lines(content)| ensures !NoisyLine(b, m, k, FixCodec(Lines(content)[k])) {
      var line := FixCodec(Lines(content)[k]);
      if !Carries(line).Nothing? {
        FixCodecClears(Lines(content)[k]);
        AddressQuiet(line);
        AbsoluteQuiet(b, Carries(line).url);
      }
    }
    IdempotentIff(content, b, m, later);
  }

  lemma AddressQuiet(line: string)
    requires !Contains(line, AAC_MAIN) && !Carries(line).Nothing?
    ensures !Contains(Carries(line).url, AAC_MAIN)
  {
    hide Contains, AttributeAt, IsSpace, Trim;
    AacPlain();
    if Carries(line).Address? {
      TrimKeeps(line, AAC_MAIN, IsSpace);
    } else {
      var at := AttributeAt(line).value;
      PieceFree(line, AAC_MAIN, at.0, at.1);
    }
  }

  lemma LoneLine(s: string)
    requires '\n' !in s && !Contains(s, AAC_MAIN)
    ensures Lines(s) == [s] && FixCodec(s) == s
  {
    NoSuchChar(s, '\n');
    FixCodecKeeps(s);
  }

  lemma EscapedCodec()
    ensures !Contains("mp4a%2E40.1", AAC_MAIN)
  {
    hide OccursAt;
    var s := "mp4a%2E40.1";
    assert s[4] == '%' && s[1] == 'p' && s[2] == '4';
    forall i: nat ensures !OccursAt(s, AAC_MAIN, i) {
      AacSpelled(s, i);
    }
  }

  /** A playlist of one address. */
  lemma LoneAddress(w: string, b: Base, m: Minter, later: Minter)
    requires m.Valid() && later.Valid()
    requires Clean(w) && w != "" && w[0] != '#' && !Contains(w, AAC_MAIN) && !AlreadyProxied(w)
    ensures var once := Rewrite(w, Some(b), m);
            Rewrite(once, Some(b), later) == once <==> !NoisyUrl(m, 0, Absolute(b, w))
  {
    hide FixCodec, Split, Rewrite, Contains, IndexOf, AlreadyProxied;
    LoneLine(w);
    WordCarries(w);
    assert NoisyLine(b, m, 0, FixCodec(Lines(w)[0])) == NoisyUrl(m, 0, Absolute(b, w));
    IdempotentIff(w, b, m, later);
  }

  /** The last segment of a path with one escaped byte behind its last slash. */
  lemma {:induction false} EscapedSegment(u: string, dir: string, stem: string, b: Byte, more: string)
    requires PathOf(u) == dir + "/" + stem + Percent(b) + more
    requires forall c :: c in dir + stem + more ==> c != '%' && c as int < 0x80
    requires '/' !in stem && '/' !in more && b != SLASH
    ensures forall i :: 0 <= i < |stem| ==> stem[i] as int < 0x80
    ensures forall i :: 0 <= i < |more| ==> more[i] as int < 0x80
    ensures LastSegment(u) == Codes(stem) + [b] + Codes(more)
  {
    hide PathUnescape, Percent, PathOf, HexValue, HexDigit;
    var front := dir + "/" + stem;
    assert forall i :: 0 <= i < |dir| ==> dir[i] in dir + stem + more;
    assert forall i :: 0 <= i < |stem| ==> stem[i] in dir + stem + more;
    assert forall i :: 0 <= i < |more| ==> more[i] in dir + stem + more;
    UnescapeEmpty();
    assert more + "" == more;
    UnescapePlain(more, "");
    UnescapePercentByte(b, more);
    UnescapePlain(front, Percent(b) + more);
    assert PathOf(u) == front + (Percent(b) + more);
    var segment := Codes(stem) + [b] + Codes(more);
    assert Codes(front) + ([b] + (Codes(more) + [])) == Codes(dir) + [SLASH] + segment;
    AfterSlashIs(Codes(dir), segment);
  }

  lemma {:induction false} AfterSlashIs(front: seq<Byte>, segment: seq<Byte>)
    requires SLASH !in segment
    ensures AfterSlash(front + [SLASH] + segment) == segment
  {
    hide AfterSlash;
    var bytes := front + [SLASH] + segment;
    assert bytes[|front|] == SLASH && bytes[|front| + 1..] == segment;
    assert |AfterSlash(bytes)| == |segment|;
  }

  const CDN := Base("https", "cdn.example", "/v/")
  const HIDDEN := "mp4a%2E40.1"

  lemma {:induction false} HiddenAbsolute()
    ensures CDN.Dir() == "https://cdn.example/v/" && Absolute(CDN, HIDDEN) == "https://cdn.example/v/" + HIDDEN
  {
    var path := CDN.path;
    assert path[2] == '/' && LastSlash(path) == Some(2);
    assert path[..3] == path;
    assert CDN.Origin() == "https" + "://" + "cdn.example" == "https://cdn.example";
    assert HIDDEN[0] == 'm';
  }

  lemma {:induction false} HiddenPath(u: string)
    requires u == "https://cdn.example/v/" + HIDDEN
    ensures PathOf(u) == "/v/" + HIDDEN
  {
    hide PathOf;
    var more := "v/" + HIDDEN;
    assert u == "https" + "://" + "cdn.example" + "/" + more;
    PathFound("https", "cdn.example", more);
    assert "/" + more == "/v/" + HIDDEN;
  }

  /** Where the path of an address without query and fragment starts. */
  lemma {:induction false} PathFound(scheme: string, host: string, more: string)
    requires ':' !in scheme && '/' !in host
    requires forall c :: c in scheme + host + more ==> c != '#' && c != '?'
    ensures PathOf(scheme + "://" + host + "/" + more) == "/" + more
  {
    hide IndexOf, OccursAt;
    var u, rest := scheme + "://" + host + "/" + more, host + "/" + more;
    assert forall c :: c in u ==> c in scheme + host + more || c == ':' || c == '/';
    BeforeNone(u, '#');
    BeforeNone(u, '?');
    assert u == scheme + ("://" + rest);
    FirstMark(scheme, rest);
    assert u[|scheme| + 3..] == rest;
    FirstChar(host, "/" + more, '/');
    assert rest == host + ("/" + more);
    assert rest[|host|..] == "/" + more;
  }

  lemma {:induction false} FirstMark(scheme: string, rest: string)
    requires ':' !in scheme
    ensures IndexOf(scheme + ("://" + rest), "://") == Some(|scheme|)
  {
    var u := scheme + ("://" + rest);
    forall j: nat | j < |scheme| ensures !OccursAt(u, "://", j) {
      assert u[j] == scheme[j];
      if j + 3 <= |u| {
        assert u[j..j + 3][0] == u[j] && "://"[0] == ':';
      }
    }
    assert u[|scheme|..|scheme| + 3] == "://";
    FirstOccurrence(u, "://", |scheme|);
  }

  lemma BeforeNone(s: string, c: char)
    requires c !in s
    ensures Before(s, c) == s
  {
    MissingChar(s, [c], c);
  }

  /** The decoded last segment of the hidden line's address is the codec. */
  lemma {:induction false} HiddenSegment()
    ensures CDN.Dir() == "https://cdn.example/v/" && Absolute(CDN, HIDDEN) == "https://cdn.example/v/" + HIDDEN
    ensures AsText(LastSegment(Absolute(CDN, HIDDEN))) == AAC_MAIN
  {
    hide LastSegment, PathOf;
    HiddenAbsolute();
    var u := Absolute(CDN, HIDDEN);
    HiddenPath(u);
    assert Percent(0x2E) == "%2E";
    assert "/v/" + HIDDEN == "/v" + "/" + "mp4a" + Percent(0x2E) + "40.1";
    EscapedSegment(u, "/v", "mp4a", 0x2E, "40.1");
    var text := AsText(LastSegment(u));
    assert |text| == |AAC_MAIN| && forall i :: 0 <= i < |text| ==> text[i] as int == AAC_MAIN[i] as int;
  }

  lemma HiddenIsForeign()
    ensures Clean(HIDDEN) && HIDDEN[0] == 'm' && !AlreadyProxied(HIDDEN)
  {
    hide Contains, AlreadyProxied;
    ProxiedByName(HIDDEN);
    MissingChar(HIDDEN, "hls-proxy", 'y') by { assert "hls-proxy"[8] == 'y'; }
    MissingChar(HIDDEN, "/api/streaming/m/", '/') by { assert "/api/streaming/m/"[0] == '/'; }
  }

  /** With tokens it is not, even then: a last segment that hides the codec behind an escape comes out decoded. */
  lemma MaskedLeafIsNotIdempotent(m: Minter, later: Minter)
    requires m.Valid() && later.Valid()
    requires var u := Absolute(CDN, HIDDEN); m.token(0, u) != "" && m.leaf(u) == LastSegment(u)
    ensures var once := Rewrite(HIDDEN, Some(CDN), m); Rewrite(once, Some(CDN), later) != once
    ensures !Contains(CDN.Dir(), AAC_MAIN) && !Contains(HIDDEN, AAC_MAIN)
  {
    hide FixCodec, Split, Rewrite, Contains, IndexOf, AlreadyProxied, Absolute, LastSegment, Clean;
    EscapedCodec();
    HiddenSegment();
    HiddenIsForeign();
    MissingChar(CDN.Dir(), AAC_MAIN, '4') by { assert AAC_MAIN[2] == '4'; }
    ContainsAt(AAC_MAIN, AAC_MAIN, 0);
    LoneAddress(HIDDEN, CDN, m, later);
  }

  // ----- a directory that does not parse again -----

  lemma {:induction false} UnescapeUnescaped(s: string)
    requires '%' !in s
    ensures PathUnescape(s).Some?
    decreases |s|
  {
    hide Utf8;
    if s != "" {
      UnescapeUnescaped(s[1..]);
    }
  }

  lemma BeforeWithin(s: string, c: char)
    ensures |Before(s, c)| <= |s| && s[..|Before(s, c)|] == Before(s, c)
    ensures forall x :: x !in s ==> x !in Before(s, c)
  {
  }

  /** A decoded path without a percent sign or a control character is safe. */
  lemma PlainDirReparses(b: Base)
    requires forall c :: c in b.path ==> ' ' <= c && c != '\U{7F}' && c != '%'
    ensures Reparses(b)
  {
    hide Parses, b.Dir, b.Origin;
    DirChars(b);
    PlainParses(b.Dir()[|b.Origin()|..]);
  }

  lemma PlainParses(rest: string)
    requires forall c :: c in rest ==> ' ' <= c && c != '\U{7F}' && c != '%'
    ensures Parses(rest)
  {
    hide PathUnescape, Before;
    var address := Before(rest, '#');
    BeforeWithin(rest, '#');
    BeforeWithin(address, '?');
    forall k | 0 <= k < |address| ensures ' ' <= address[k] && address[k] != '\U{7F}' {
      assert address[k] == rest[..|address|][k] == rest[k] && rest[k] in rest;
    }
    UnescapeUnescaped(Before(address, '?'));
    if |address| < |rest| {
      assert forall k :: |address| < k < |rest| ==> rest[k] in rest;
      UnescapeUnescaped(rest[|address| + 1..]);
    }
  }

  lemma DirChars(b: Base)
    ensures |b.Origin()| <= |b.Dir()| && forall c :: c in b.Dir()[|b.Origin()|..] ==> c in b.path || c == '/'
  {
    hide b.Origin;
  }

  const TWICE := Base("https", "cdn.example", "/a%zz/x.m3u8")

  /** A manifest under `/a%25zz/`: its decoded directory holds a malformed escape, and a root-relative line is fatal. */
  lemma EscapedDirIsFatal()
    ensures !Reparses(TWICE) && Dereferences(TWICE, "/k.ts") && "/k.ts" in Lines(FixCodec("/k.ts"))
  {
    hide FixCodec, Split, Contains, IndexOf, AlreadyProxied, Reparses;
    TwiceFails();
    var line := "/k.ts";
    MissingChar(line, AAC_MAIN, 'm') by { assert AAC_MAIN[0] == 'm'; }
    LoneLine(line);
    WordCarries(line);
    hide Carries;
    ProxiedByName(line);
    MissingChar(line, "hls-proxy", 'y') by { assert "hls-proxy"[8] == 'y'; }
    MissingChar(line, "/api/streaming/m/", 'm') by { assert "/api/streaming/m/"[15] == 'm'; }
  }

  lemma {:induction false} TwiceFails()
    ensures !Reparses(TWICE)
  {
    hide PathUnescape, IndexOf;
    var path := TWICE.path;
    assert path[5] == '/' && LastSlash(path) == Some(5) by { LastSlashIs(path, 5); }
    assert path[..6] == "/a%zz/";
    var rest := TWICE.Dir()[|TWICE.Origin()|..];
    assert rest == "/a%zz/";
    BeforeNone(rest, '#');
    BeforeNone(rest, '?');
    MalformedEscape();
  }

  lemma {:induction false} LastSlashIs(s: string, k: nat)
    requires k < |s| && s[k] == '/' && forall j :: k < j < |s| ==> s[j] != '/'
    ensures LastSlash(s) == Some(k)
  {
    assert s[k] in s;
  }

  lemma {:induction false} MalformedEscape()
    ensures PathUnescape("/a%zz/").None?
  {
    hide Utf8;
    assert PathUnescape("%zz/").None?;
    hide PathUnescape;
    UnescapeKept('a', "%zz/");
    assert ['a'] + "%zz/" == "a%zz/";
    UnescapeKept('/', "a%zz/");
    assert ['/'] + "a%zz/" == "/a%zz/";
  }
}
