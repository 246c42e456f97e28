/**
 The pattern table of src/security/sanitize.ts, lines 34-74, in its order. The
 four patterns with an unbounded value and the base64 rescan stay arbitrary
 matchers; every other row is spelled out class by class.
 */
module SecretPatterns {
  import opened LeakFilter
  import opened Text

  const DIGITS := set c: char | '0' <= c <= '9'
  const LOWER := set c: char | 'a' <= c <= 'z'
  const UPPER := set c: char | 'A' <= c <= 'Z'
  const ALNUM := DIGITS + LOWER + UPPER

  function BothCases(c: char): set<char> {
    if 'a' <= c <= 'z' then {c, c - 'a' + 'A'}
    else if 'A' <= c <= 'Z' then {c, c - 'A' + 'a'}
    else {c}
  }

  function Exactly(s: string): seq<set<char>> {
    seq(|s|, i requires 0 <= i < |s| => {s[i]})
  }

  function AnyCase(s: string): seq<set<char>> {
    seq(|s|, i requires 0 <= i < |s| => BothCases(s[i]))
  }

  function Times(n: nat, class_: set<char>): seq<set<char>> {
    seq(n, _ => class_)
  }

  function Chars(s: string): set<char> {
    set c | c in s
  }

  predicate NoBrackets(classes: seq<set<char>>) {
    forall k :: 0 <= k < |classes| ==> '[' !in classes[k] && ']' !in classes[k]
  }

  lemma LiteralsHaveNoBrackets(s: string)
    requires '[' !in s && ']' !in s
    ensures NoBrackets(Exactly(s)) && NoBrackets(AnyCase(s))
  {
  }

  /** A fixed text in three parts, then a class repeated at least `n` times. */
  function Key(name: string, a: seq<set<char>>, b: seq<set<char>>, c: seq<set<char>>, n: nat, class_: set<char>)
    : (p: Pattern)
    requires NoBrackets(a) && NoBrackets(b) && NoBrackets(c) && '[' !in class_ && ']' !in class_
    requires |TOKEN| - 1 <= |a| + |b| + |c| + n <= OVERLAP + 1
    ensures Guarded(p)
  {
    Shape(name, a + b + c + Times(n, class_), class_)
  }

  function Fixed(name: string, a: seq<set<char>>, b: seq<set<char>>, c: seq<set<char>>): (p: Pattern)
    requires NoBrackets(a) && NoBrackets(b) && NoBrackets(c)
    requires |TOKEN| - 1 <= |a| + |b| + |c| <= OVERLAP + 1
    ensures Guarded(p)
  {
    Shape(name, a + b + c, {})
  }

  function CapabilityId(): (p: Pattern)
    ensures Guarded(p)
  {
    LiteralsHaveNoBrackets("cap_");
    Fixed("capability_id", AnyCase("cap_"), Times(12, DIGITS + Chars("abcdefABCDEF")), [])
  }

  function TrustBoundary(): (p: Pattern)
    ensures Guarded(p)
  {
    LiteralsHaveNoBrackets("SIGIL_TRUST_BOUNDARY");
    Fixed("trust_boundary_tag", AnyCase("SIGIL_TRUST_BOUNDARY"), [], [])
  }

  function IroncladContext(): (p: Pattern)
    ensures Guarded(p)
  {
    LiteralsHaveNoBrackets("IRONCLAD_CONTEXT");
    Fixed("ironclad_context_tag", AnyCase("IRONCLAD_CONTEXT"), [], [])
  }

  function AnthropicKey(): (p: Pattern)
    ensures Guarded(p)
  {
    LiteralsHaveNoBrackets("sk-ant-api");
    LiteralsHaveNoBrackets("-");
    Key("anthropic_key", AnyCase("sk-ant-api"), Times(2, DIGITS), Exactly("-"), 20, ALNUM + {'_', '-'})
  }

  function OpenAiKey(): (p: Pattern)
    ensures Guarded(p)
  {
    LiteralsHaveNoBrackets("sk-");
    Key("openai_key", AnyCase("sk-"), [], [], 20, ALNUM)
  }

  function GithubPat(): (p: Pattern)
    ensures Guarded(p)
  {
    LiteralsHaveNoBrackets("ghp_");
    Key("github_pat", AnyCase("ghp_"), [], [], 36, ALNUM)
  }

  function GithubToken(): (p: Pattern)
    ensures Guarded(p)
  {
    LiteralsHaveNoBrackets("gh");
    LiteralsHaveNoBrackets("_");
    Key("github_token", Exactly("gh"), [Chars("ousr")], Exactly("_"), 36, ALNUM)
  }

  function SlackToken(): (p: Pattern)
    ensures Guarded(p)
  {
    LiteralsHaveNoBrackets("xoxb-");
    Key("slack_token", AnyCase("xoxb-"), [], [], 20, ALNUM + {'-'})
  }

  function AwsAccessKey(): (p: Pattern)
    ensures Guarded(p)
  {
    LiteralsHaveNoBrackets("AKIA");
    Fixed("aws_access_key", Exactly("AKIA"), Times(16, DIGITS + UPPER), [])
  }

  function SlackTokenExtended(): (p: Pattern)
    ensures Guarded(p)
  {
    LiteralsHaveNoBrackets("xox");
    LiteralsHaveNoBrackets("-");
    Key("slack_token_extended", AnyCase("xox"), [Chars("pboaPBOA")], Exactly("-"), 10, ALNUM + {'-'})
  }

  function PrivateKey(kind: string): (p: Pattern)
    requires |kind| <= 8 && '[' !in kind && ']' !in kind
    ensures Guarded(p)
  {
    LiteralsHaveNoBrackets("-----BEGIN ");
    LiteralsHaveNoBrackets(kind);
    LiteralsHaveNoBrackets("PRIVATE KEY-----");
    Fixed("private_key", Exactly("-----BEGIN "), Exactly(kind), Exactly("PRIVATE KEY-----"))
  }

  // ------------------------------------------------------------ what the rows match

  predicate IsDigit(c: char) {
    '0' <= c <= '9'
  }

  predicate IsAlnum(c: char) {
    IsDigit(c) || 'a' <= c <= 'z' || 'A' <= c <= 'Z'
  }

  /** `w` begins with `word`, the case of letters set aside. */
  predicate BeginsLike(w: string, word: string) {
    AlikeAt(w, word, 0)
  }

  predicate AllFrom(w: string, i: nat, admits: char -> bool) {
    forall k :: i <= k < |w| ==> admits(w[k])
  }

  lemma AnyCaseIsAlike(word: string)
    ensures |AnyCase(word)| == |word|
    ensures forall k, c :: 0 <= k < |word| ==> (c in AnyCase(word)[k] <==> Alike(c, word[k]))
  {
  }

  // Minimal matches of the rows, as the regular expressions spell them.

  predicate IsCapabilityId(w: string) {
    |w| == 16 && BeginsLike(w, "cap_") && AllFrom(w, 4, c => IsDigit(c) || 'a' <= c <= 'f' || 'A' <= c <= 'F')
  }

  predicate IsBoundaryTag(w: string) {
    |w| == 20 && BeginsLike(w, "SIGIL_TRUST_BOUNDARY")
  }

  predicate IsContextTag(w: string) {
    |w| == 16 && BeginsLike(w, "IRONCLAD_CONTEXT")
  }

  predicate IsAnthropicKey(w: string) {
    && |w| == 33 && BeginsLike(w, "sk-ant-api") && IsDigit(w[10]) && IsDigit(w[11]) && w[12] == '-'
    && AllFrom(w, 13, c => IsAlnum(c) || c == '_' || c == '-')
  }

  predicate IsOpenAiKey(w: string) {
    |w| == 23 && BeginsLike(w, "sk-") && AllFrom(w, 3, IsAlnum)
  }

  predicate IsGithubPat(w: string) {
    |w| == 40 && BeginsLike(w, "ghp_") && AllFrom(w, 4, IsAlnum)
  }

  predicate IsGithubToken(w: string) {
    |w| == 40 && w[0] == 'g' && w[1] == 'h' && w[2] in "ousr" && w[3] == '_' && AllFrom(w, 4, IsAlnum)
  }

  predicate IsSlackToken(w: string) {
    |w| == 25 && BeginsLike(w, "xoxb-") && AllFrom(w, 5, c => IsAlnum(c) || c == '-')
  }

  predicate IsAwsAccessKey(w: string) {
    |w| == 20 && w[..4] == "AKIA" && AllFrom(w, 4, c => IsDigit(c) || 'A' <= c <= 'Z')
  }

  predicate IsSlackTokenExtended(w: string) {
    && |w| == 15 && BeginsLike(w, "xox") && w[3] in "pboaPBOA" && w[4] == '-'
    && AllFrom(w, 5, c => IsAlnum(c) || c == '-')
  }

  predicate IsPrivateKey(w: string, kind: string) {
    w == "-----BEGIN " + kind + "PRIVATE KEY-----"
  }

  lemma CapabilityIdIs(w: string)
    ensures Fits(CapabilityId().classes, w) <==> IsCapabilityId(w)
  {
    AnyCaseIsAlike("cap_");
  }

  lemma BoundaryTagIs(w: string)
    ensures Fits(TrustBoundary().classes, w) <==> IsBoundaryTag(w)
  {
    AnyCaseIsAlike("SIGIL_TRUST_BOUNDARY");
  }

  lemma ContextTagIs(w: string)
    ensures Fits(IroncladContext().classes, w) <==> IsContextTag(w)
  {
    AnyCaseIsAlike("IRONCLAD_CONTEXT");
  }

  lemma AnthropicKeyIs(w: string)
    ensures Fits(AnthropicKey().classes, w) <==> IsAnthropicKey(w)
  {
    AnyCaseIsAlike("sk-ant-api");
  }

  lemma OpenAiKeyIs(w: string)
    ensures Fits(OpenAiKey().classes, w) <==> IsOpenAiKey(w)
  {
    AnyCaseIsAlike("sk-");
  }

  lemma GithubPatIs(w: string)
    ensures Fits(GithubPat().classes, w) <==> IsGithubPat(w)
  {
    AnyCaseIsAlike("ghp_");
  }

  lemma GithubTokenIs(w: string)
    ensures Fits(GithubToken().classes, w) <==> IsGithubToken(w)
  {
  }

  lemma SlackTokenIs(w: string)
    ensures Fits(SlackToken().classes, w) <==> IsSlackToken(w)
  {
    AnyCaseIsAlike("xoxb-");
  }

  lemma AwsAccessKeyIs(w: string)
    ensures Fits(AwsAccessKey().classes, w) <==> IsAwsAccessKey(w)
  {
  }

  lemma SlackTokenExtendedIs(w: string)
    ensures Fits(SlackTokenExtended().classes, w) <==> IsSlackTokenExtended(w)
  {
    AnyCaseIsAlike("xox");
  }

  lemma PrivateKeyIs(kind: string, w: string)
    requires |kind| <= 8 && '[' !in kind && ']' !in kind
    ensures Fits(PrivateKey(kind).classes, w) <==> IsPrivateKey(w, kind)
  {
    var text := "-----BEGIN " + kind + "PRIVATE KEY-----";
    assert PrivateKey(kind).classes == Exactly(text);
    assert Exactly(text) == seq(|text|, i requires 0 <= i < |text| => {text[i]});
  }

  /** A key goes on as far as its characters do. */
  lemma TailsAre(c: char)
    ensures c in AnthropicKey().tail <==> IsAlnum(c) || c == '_' || c == '-'
    ensures c in OpenAiKey().tail <==> IsAlnum(c)
    ensures c in GithubPat().tail <==> IsAlnum(c)
    ensures c in GithubToken().tail <==> IsAlnum(c)
    ensures c in SlackToken().tail <==> IsAlnum(c) || c == '-'
    ensures c in SlackTokenExtended().tail <==> IsAlnum(c) || c == '-'
  {
  }

  /** The optional group of the private-key pattern is spelled out as alternatives. */
  function SensitivePatterns(jwt: Pattern, password: Pattern, env: Pattern, connection: Pattern, base64: Pattern)
    : seq<Pattern>
  {
    [ CapabilityId(), TrustBoundary(), IroncladContext(), AnthropicKey(), OpenAiKey(), GithubPat(), GithubToken(),
      SlackToken(), AwsAccessKey(), jwt, password, env, connection,
      PrivateKey(""), PrivateKey("RSA "), PrivateKey("EC "), PrivateKey("DSA "), PrivateKey("OPENSSH "),
      SlackTokenExtended(), base64 ]
  }

  /** The row is spelled out, not a free matcher. */
  predicate SpelledOut(k: nat) {
    k < 20 && k !in {9, 10, 11, 12, 19}
  }

  /** With the gateway's own table: no row of a fixed shape ever reaches the sink. */
  lemma NoTableRowEscapes(jwt: Pattern, password: Pattern, env: Pattern, connection: Pattern, base64: Pattern,
                          k: nat, chunks: seq<string>)
    requires SpelledOut(k)
    ensures var ps := SensitivePatterns(jwt, password, env, connection, base64);
            !Matches(ps[k], Delivered(ps, chunks))
  {
    NothingGuardedEscapes(SensitivePatterns(jwt, password, env, connection, base64), k, chunks);
  }

  lemma FitsMatches(p: Pattern, s: string, i: nat, n: nat)
    requires Guarded(p) && i + n <= |s| && Fits(p.classes, s[i..i + n])
    ensures Matches(p, s)
  {
    assert |p.classes| == n && FitsAt(p.classes, s, i);
    assert MatchLen(p, s, i) > 0;
  }

  /** A stretch of what a filter with these patterns delivers. */
  ghost predicate IsDelivered(ps: seq<Pattern>, w: string, chunks: seq<string>, i: nat) {
    i + |w| <= |Delivered(ps, chunks)| && Delivered(ps, chunks)[i..i + |w|] == w
  }

  lemma NoRowFits(ps: seq<Pattern>, k: nat, p: Pattern, w: string, chunks: seq<string>, i: nat)
    requires k < |ps| && ps[k] == p && Guarded(p) && IsDelivered(ps, w, chunks, i)
    ensures !Fits(p.classes, w)
  {
    NothingGuardedEscapes(ps, k, chunks);
    if Fits(p.classes, w) {
      FitsMatches(p, Delivered(ps, chunks), i, |w|);
    }
  }

  // The rows that are spelled out stand in their places.

  ghost predicate HasTags(ps: seq<Pattern>) {
    |ps| == 20 && ps[0] == CapabilityId() && ps[1] == TrustBoundary() && ps[2] == IroncladContext()
  }

  ghost predicate HasKeys(ps: seq<Pattern>) {
    |ps| == 20 && ps[3] == AnthropicKey() && ps[4] == OpenAiKey()
  }

  ghost predicate HasGithubTokens(ps: seq<Pattern>) {
    |ps| == 20 && ps[5] == GithubPat() && ps[6] == GithubToken()
  }

  ghost predicate HasOtherTokens(ps: seq<Pattern>) {
    |ps| == 20 && ps[7] == SlackToken() && ps[8] == AwsAccessKey() && ps[18] == SlackTokenExtended()
  }

  ghost predicate HasKeyHeaders(ps: seq<Pattern>) {
    && |ps| == 20 && ps[13] == PrivateKey("") && ps[14] == PrivateKey("RSA ") && ps[15] == PrivateKey("EC ")
    && ps[16] == PrivateKey("DSA ") && ps[17] == PrivateKey("OPENSSH ")
  }

  lemma TableHasTags(jwt: Pattern, password: Pattern, env: Pattern, connection: Pattern, base64: Pattern)
    ensures HasTags(SensitivePatterns(jwt, password, env, connection, base64))
  {
  }

  lemma TableHasKeys(jwt: Pattern, password: Pattern, env: Pattern, connection: Pattern, base64: Pattern)
    ensures HasKeys(SensitivePatterns(jwt, password, env, connection, base64))
  {
  }

  lemma TableHasGithubTokens(jwt: Pattern, password: Pattern, env: Pattern, connection: Pattern, base64: Pattern)
    ensures HasGithubTokens(SensitivePatterns(jwt, password, env, connection, base64))
  {
  }

  lemma TableHasOtherTokens(jwt: Pattern, password: Pattern, env: Pattern, connection: Pattern, base64: Pattern)
    ensures HasOtherTokens(SensitivePatterns(jwt, password, env, connection, base64))
  {
  }

  lemma TableHasKeyHeaders(jwt: Pattern, password: Pattern, env: Pattern, connection: Pattern, base64: Pattern)
    ensures HasKeyHeaders(SensitivePatterns(jwt, password, env, connection, base64))
  {
  }

  lemma NoTagsDelivered(ps: seq<Pattern>, w: string, chunks: seq<string>, i: nat)
    requires HasTags(ps) && IsDelivered(ps, w, chunks, i)
    ensures !IsCapabilityId(w) && !IsBoundaryTag(w) && !IsContextTag(w)
  {
    NoRowFits(ps, 0, CapabilityId(), w, chunks, i);
    CapabilityIdIs(w);
    NoRowFits(ps, 1, TrustBoundary(), w, chunks, i);
    BoundaryTagIs(w);
    NoRowFits(ps, 2, IroncladContext(), w, chunks, i);
    ContextTagIs(w);
  }

  lemma NoKeysDelivered(ps: seq<Pattern>, w: string, chunks: seq<string>, i: nat)
    requires HasKeys(ps) && IsDelivered(ps, w, chunks, i)
    ensures !IsAnthropicKey(w) && !IsOpenAiKey(w)
  {
    NoRowFits(ps, 3, AnthropicKey(), w, chunks, i);
    AnthropicKeyIs(w);
    NoRowFits(ps, 4, OpenAiKey(), w, chunks, i);
    OpenAiKeyIs(w);
  }

  lemma NoGithubTokensDelivered(ps: seq<Pattern>, w: string, chunks: seq<string>, i: nat)
    requires HasGithubTokens(ps) && IsDelivered(ps, w, chunks, i)
    ensures !IsGithubPat(w) && !IsGithubToken(w)
  {
    NoRowFits(ps, 5, GithubPat(), w, chunks, i);
    GithubPatIs(w);
    NoRowFits(ps, 6, GithubToken(), w, chunks, i);
    GithubTokenIs(w);
  }

  lemma NoOtherTokensDelivered(ps: seq<Pattern>, w: string, chunks: seq<string>, i: nat)
    requires HasOtherTokens(ps) && IsDelivered(ps, w, chunks, i)
    ensures !IsSlackToken(w) && !IsAwsAccessKey(w) && !IsSlackTokenExtended(w)
  {
    NoRowFits(ps, 7, SlackToken(), w, chunks, i);
    SlackTokenIs(w);
    NoRowFits(ps, 8, AwsAccessKey(), w, chunks, i);
    AwsAccessKeyIs(w);
    NoRowFits(ps, 18, SlackTokenExtended(), w, chunks, i);
    SlackTokenExtendedIs(w);
  }

  predicate IsKeyHeader(w: string) {
    || IsPrivateKey(w, "") || IsPrivateKey(w, "RSA ") || IsPrivateKey(w, "EC ") || IsPrivateKey(w, "DSA ")
    || IsPrivateKey(w, "OPENSSH ")
  }

  lemma NoKeyHeadersDelivered(ps: seq<Pattern>, w: string, chunks: seq<string>, i: nat)
    requires HasKeyHeaders(ps) && IsDelivered(ps, w, chunks, i)
    ensures !IsKeyHeader(w)
  {
    NoRowFits(ps, 13, PrivateKey(""), w, chunks, i);
    PrivateKeyIs("", w);
    NoRowFits(ps, 14, PrivateKey("RSA "), w, chunks, i);
    PrivateKeyIs("RSA ", w);
    NoRowFits(ps, 15, PrivateKey("EC "), w, chunks, i);
    PrivateKeyIs("EC ", w);
    NoRowFits(ps, 16, PrivateKey("DSA "), w, chunks, i);
    PrivateKeyIs("DSA ", w);
    NoRowFits(ps, 17, PrivateKey("OPENSSH "), w, chunks, i);
    PrivateKeyIs("OPENSSH ", w);
  }
}
