/** The token service and the refresh route. The digest is a parameter: nothing is claimed about it beyond
    its shape, five 32-bit words. */
module Tokens {
  import opened Machine
  import opened Messages
  import opened Decimal
  import opened Json

  type Word = w: nat | w < 0x1_0000_0000

  type Digest = d: seq<Word> | |d| == 5 witness [0, 0, 0, 0, 0]

  /** `extractUserId`; a "sub" that is not a string makes the JSON library throw. */
  datatype Extracted = UserId(id: string) | Throws

  /** What the JSON library can make of a text: the strings it reads are well-formed UTF-8. */
  type Readable = r: Extracted | r.UserId? ==> ValidUtf8(r.id) witness Throws

  /** The service: its secret, the digest of a byte string, and the subject the JSON library finds in a payload
      that is not the compact flat object this service writes (white space, nesting, other numbers, no JSON
      at all). */
  datatype Service = Service(secret: string, sha1: string -> Digest, other: string -> Readable)

  /** The clock, as an unsigned 64-bit number. */
  type Seconds = n: nat | n < TWO_64

  // ---------------------------------------------------------------- signatures

  /** Words printed in hex, without leading zeros, one after another. */
  function HexWords(words: seq<Word>): string {
    if words == [] then [] else HexWords(words[..|words| - 1]) + Hex(words[|words| - 1])
  }

  /** The hasher is fed the data and then the secret. */
  function Sign(svc: Service, data: string): string {
    HexWords(svc.sha1(data + svc.secret))
  }

  method ComputeSignature(svc: Service, data: string) returns (signature: string)
    ensures signature == Sign(svc, data)
  {
    var digest := svc.sha1(data + svc.secret);
    signature := "";
    for i := 0 to |digest|
      invariant signature == HexWords(digest[..i])
    {
      assert digest[..i + 1][..i] == digest[..i];
      signature := signature + Hex(digest[i]);
    }
    assert digest[..|digest|] == digest;
  }

  predicate AllHex(s: string) {
    forall i | 0 <= i < |s| :: IsHex(s[i])
  }

  lemma {:induction false} HexWordsShape(words: seq<Word>)
    ensures AllHex(HexWords(words)) && |words| <= |HexWords(words)| <= 8 * |words|
  {
    if words != [] {
      var last := words[|words| - 1];
      HexWordsShape(words[..|words| - 1]);
      HexAre(last);
      Pow8();
      HexLength(last, 8);
    }
  }

  lemma Pow8()
    ensures Pow16(8) == 0x1_0000_0000
  {
    assert Pow16(4) == 0x1_0000;
    assert Pow16(6) == 0x100_0000;
  }

  /** Every signature is hex digits only, between 5 and 40 of them. */
  lemma SignatureShape(svc: Service, data: string)
    ensures AllHex(Sign(svc, data)) && 5 <= |Sign(svc, data)| <= 40
  {
    HexWordsShape(svc.sha1(data + svc.secret));
  }

  /** The hasher sees one byte string: moving bytes from the end of the data to the front of the secret does
      not change the signature. */
  lemma SignsDataThenSecret(svc: Service, data: string, x: string)
    ensures Sign(svc, data + x) == Sign(svc.(secret := x + svc.secret), data)
  {
    assert data + x + svc.secret == data + (x + svc.secret);
  }

  const ONES: Digest := [1, 1, 1, 1, 1]
  const TWOS: Digest := [2, 2, 2, 2, 2]

  /** A hasher that tells one byte string from all others. */
  function Telling(text: string): string -> Digest {
    (s: string) => if s == text then ONES else TWOS
  }

  lemma HexDiffers()
    ensures HexWords(ONES) != HexWords(TWOS)
  {
    DigitFacts(1, 2);
    assert HexWords(ONES)[|HexWords(ONES)| - 1] == Digit(1);
    assert HexWords(TWOS)[|HexWords(TWOS)| - 1] == Digit(2);
  }

  lemma DiffersInFront(x: string, y: string, z: string)
    ensures x + z == y + z ==> x == y
  {
    assert (x + z)[..|x|] == x && (y + z)[..|y|] == y;
  }

  lemma DiffersBehind(x: string, y: string, z: string)
    ensures x + y == x + z ==> y == z
  {
    assert (x + y)[|x|..] == y && (x + z)[|x|..] == z;
  }

  /** The signature depends on the data and on the secret: different data, or different secrets, are signed
      differently under some hasher. */
  lemma SignDependsOnBoth(svc: Service, data: string, data': string, secret': string)
    ensures data != data' ==>
      exists h :: Sign(svc.(sha1 := h), data) != Sign(svc.(sha1 := h), data')
    ensures svc.secret != secret' ==>
      exists h :: Sign(svc.(sha1 := h), data) != Sign(svc.(sha1 := h, secret := secret'), data)
  {
    var h := Telling(data + svc.secret);
    HexDiffers();
    if data != data' {
      DiffersInFront(data, data', svc.secret);
      assert Sign(svc.(sha1 := h), data) != Sign(svc.(sha1 := h), data');
    }
    if svc.secret != secret' {
      DiffersBehind(data, svc.secret, secret');
      assert Sign(svc.(sha1 := h), data) != Sign(svc.(sha1 := h, secret := secret'), data);
    }
  }

  /** The words of full width. */
  predicate Full(words: seq<Word>) {
    forall i | 0 <= i < |words| :: words[i] >= 0x1000_0000
  }

  lemma {:induction false} FullLength(words: seq<Word>)
    requires Full(words)
    ensures |HexWords(words)| == 8 * |words|
  {
    if words != [] {
      var last := words[|words| - 1];
      FullLength(words[..|words| - 1]);
      Pow8();
      HexLength(last, 8);
      assert Pow16(7) == 0x1000_0000;
      HexIsLong(last, 7);
    }
  }

  lemma {:induction false} PieceIsWord(words: seq<Word>, i: nat)
    requires i < |words|
    ensures |HexWords(words[..i])| <= |HexWords(words[..i + 1])| <= |HexWords(words)|
    ensures HexWords(words)[|HexWords(words[..i])|..|HexWords(words[..i + 1])|] == Hex(words[i])
  {
    var pre := words[..|words| - 1];
    if i < |pre| {
      PieceIsWord(pre, i);
      assert pre[..i] == words[..i] && pre[..i + 1] == words[..i + 1];
      assert HexWords(words)[..|HexWords(pre)|] == HexWords(pre);
    } else {
      assert words[..i + 1] == words;
    }
  }

  /** Every signature is the five words of the digest in order, each in hex without leading zeros. */
  lemma SignatureSpellsDigest(svc: Service, data: string, i: nat)
    requires i < 5
    ensures var digest := svc.sha1(data + svc.secret);
      var from, to := |HexWords(digest[..i])|, |HexWords(digest[..i + 1])|;
      && from < to <= |Sign(svc, data)|
      && ReadHex(Sign(svc, data)[from..to]) == digest[i]
      && (Sign(svc, data)[from] == '0' <==> digest[i] == 0)
      && (digest[i] == 0 ==> to == from + 1)
      && (i == 0 ==> from == 0) && (i == 4 ==> to == |Sign(svc, data)|)
  {
    var digest := svc.sha1(data + svc.secret);
    PieceIsWord(digest, i);
    HexReadsBack(digest[i]);
    HexNoLeadingZero(digest[i]);
    assert digest[..5] == digest;
    var from, to := |HexWords(digest[..i])|, |HexWords(digest[..i + 1])|;
    assert Sign(svc, data)[from..to] == Hex(digest[i]);
  }

  /** If no word has a leading zero the signature is the digest: forty digits, each block of eight reading
      back as its word. */
  lemma SignatureIsDigest(svc: Service, data: string, i: nat)
    requires Full(svc.sha1(data + svc.secret)) && i < 5
    ensures |Sign(svc, data)| == 40
    ensures ReadHex(Sign(svc, data)[8 * i..8 * i + 8]) == svc.sha1(data + svc.secret)[i]
  {
    var digest := svc.sha1(data + svc.secret);
    assert Full(digest[..i]) && Full(digest[..i + 1]);
    hide HexWords, ReadHex, Full;
    SignatureSpellsDigest(svc, data, i);
    FullLength(digest);
    FullLength(digest[..i]);
    FullLength(digest[..i + 1]);
  }

  // ---------------------------------------------------------------- finding characters

  /** `find`: the first position of `c`, or -1. */
  function First(s: string, c: char): (i: int)
    ensures -1 <= i < |s|
    ensures i >= 0 ==> s[i] == c && c !in s[..i]
    ensures i < 0 ==> c !in s
  {
    if s == [] then -1
    else if s[0] == c then 0
    else
      var rest := First(s[1..], c);
      assert forall n | 0 <= n <= |s| - 1 :: s[..n + 1] == [s[0]] + s[1..][..n];
      assert s == [s[0]] + s[1..];
      if rest < 0 then -1 else rest + 1
  }

  /** `rfind`: the last position of `c`, or -1. */
  function Last(s: string, c: char): (i: int)
    ensures -1 <= i < |s|
    ensures i >= 0 ==> s[i] == c && c !in s[i + 1..]
    ensures i < 0 ==> c !in s
  {
    if s == [] then -1
    else if s[|s| - 1] == c then |s| - 1
    else
      var rest := Last(s[..|s| - 1], c);
      assert forall n | 0 <= n <= |s| - 1 :: s[n..] == s[..|s| - 1][n..] + [s[|s| - 1]];
      assert s == s[..|s| - 1] + [s[|s| - 1]];
      rest
  }

  lemma FirstIs(x: string, c: char, y: string)
    requires c !in x
    ensures First(x + [c] + y, c) == |x|
  {
    var s := x + [c] + y;
    assert s[|x|] == c && s[..|x|] == x;
  }

  lemma LastIs(x: string, c: char, y: string)
    requires c !in y
    ensures Last(x + [c] + y, c) == |x|
  {
    var s := x + [c] + y;
    assert s[|x|] == c && s[|x| + 1..] == y;
  }

  // ---------------------------------------------------------------- issue, validate, extract

  const DOT: char := '.'
  const HEADER: string := ['{'] + ("\"alg\":\"HS1\"" + [','] + "\"typ\":\"JWT\"") + ['}']

  const HEADER_MEMBERS: seq<Member> := [Member("alg", Text("HS1")), Member("typ", Text("JWT"))]

  lemma TextMember(key: string, s: string)
    requires forall i | 0 <= i < |key| :: Ordinary(key[i])
    requires forall i | 0 <= i < |s| :: Ordinary(s[i])
    ensures ValidMember(Member(key, Text(s)))
    ensures DumpMember(Member(key, Text(s))) == [QUOTE] + key + [QUOTE, ':'] + ([QUOTE] + s + [QUOTE])
  {
    OrdinaryStays(key);
    OrdinaryStays(s);
  }

  lemma TwoMembers(x: Member, y: Member)
    requires ValidMember(x) && ValidMember(y)
    ensures ValidMembers([x, y]) && Dump([x, y]) == ['{'] + (DumpMember(x) + [','] + DumpMember(y)) + ['}']
  {
    hide DumpMember, ValidMember;
    assert [x, y][1..] == [y];
    assert DumpMembers([y]) == DumpMember(y);
  }

  /** The header is the JSON text of its two members. */
  lemma HeaderIsDump()
    ensures ValidMembers(HEADER_MEMBERS) && Dump(HEADER_MEMBERS) == HEADER
  {
    hide Dump, DumpMembers, DumpMember, ValidMember, ValidMembers;
    TextMember("alg", "HS1");
    TextMember("typ", "JWT");
    TwoMembers(HEADER_MEMBERS[0], HEADER_MEMBERS[1]);
    assert [QUOTE] + "alg" + [QUOTE, ':'] + ([QUOTE] + "HS1" + [QUOTE]) == "\"alg\":\"HS1\"";
    assert [QUOTE] + "typ" + [QUOTE, ':'] + ([QUOTE] + "JWT" + [QUOTE]) == "\"typ\":\"JWT\"";
  }

  /** The claims, in the key order of the JSON object; `exp` is unsigned 64-bit arithmetic. The writer
      replaces ill-formed UTF-8. */
  function Claims(userId: string, ttl: nat, now: Seconds): seq<Member> {
    [Member("exp", Number(Wrap(now + ttl))), Member("iat", Number(now)), Member("sub", Text(Sanitize(userId)))]
  }

  lemma ClaimsValid(userId: string, ttl: nat, now: Seconds)
    ensures ValidMembers(Claims(userId, ttl, now))
  {
    SanitizedIsValid(userId);
    KeyValid("exp");
    KeyValid("iat");
    KeyValid("sub");
    hide ValidUtf8, Sanitize;
  }

  lemma KeyValid(s: string)
    requires |s| == 3 && forall i | 0 <= i < 3 :: Between(s[i], 0, 0x7F)
    ensures ValidUtf8(s)
  {
    assert ValidUtf8(s[1..][1..][1..]);
    assert ValidUtf8(s[1..][1..]);
    assert ValidUtf8(s[1..]);
  }

  function IssueToken(svc: Service, userId: string, ttl: nat, now: Seconds): string {
    ClaimsValid(userId, ttl, now);
    var raw := HEADER + [DOT] + Dump(Claims(userId, ttl, now));
    raw + [DOT] + Sign(svc, raw)
  }

  predicate ValidateToken(svc: Service, token: string) {
    var dot := Last(token, DOT);
    dot >= 0 && Sign(svc, token[..dot]) == token[dot + 1..]
  }

  /** The last member called "sub" counts; a missing one reads as the empty string. */
  function Sub(ms: seq<Member>): Extracted {
    if ms == [] then UserId("")
    else if ms[|ms| - 1].key == "sub" then
      (if ms[|ms| - 1].value.Text? then UserId(ms[|ms| - 1].value.s) else Throws)
    else Sub(ms[..|ms| - 1])
  }

  function ExtractUserId(svc: Service, token: string): Extracted {
    var first, last := First(token, DOT), Last(token, DOT);
    if first < 0 || last < 0 || first >= last then UserId("")
    else
      var payload := Parse(token[first + 1..last]);
      if payload.None? then svc.other(token[first + 1..last]) else Sub(payload.value)
  }

  /** The subject is the value of the last member called "sub". */
  lemma {:induction false} SubIsLast(ms: seq<Member>, i: nat)
    requires i < |ms| && ms[i].key == "sub" && forall j | i < j < |ms| :: ms[j].key != "sub"
    ensures Sub(ms) == if ms[i].value.Text? then UserId(ms[i].value.s) else Throws
  {
    if i < |ms| - 1 {
      SubIsLast(ms[..|ms| - 1], i);
    }
  }

  lemma {:induction false} SubIsMissing(ms: seq<Member>)
    requires forall j | 0 <= j < |ms| :: ms[j].key != "sub"
    ensures Sub(ms) == UserId("")
  {
    if ms != [] {
      SubIsMissing(ms[..|ms| - 1]);
    }
  }

  /** Nothing is extracted from a text with fewer than two dots. */
  lemma ExtractsNothing(svc: Service, token: string)
    requires forall a, b, c :: token != a + [DOT] + b + [DOT] + c
    ensures ExtractUserId(svc, token) == UserId("")
  {
    hide Parse, Sub;
    if 0 <= First(token, DOT) < Last(token, DOT) {
      TwoDots(token);
      assert false;
    }
  }

  lemma TwoDots(token: string)
    requires 0 <= First(token, DOT) < Last(token, DOT)
    ensures exists a, b, c :: token == a + [DOT] + b + [DOT] + c
  {
    hide First, Last;
    SplitsAt(token, First(token, DOT), Last(token, DOT));
  }

  lemma SplitsAt(token: string, i: nat, j: nat)
    requires i < j < |token| && token[i] == token[j] == DOT
    ensures token == token[..i] + [DOT] + token[i + 1..j] + [DOT] + token[j + 1..]
  {
  }

  lemma BetweenDots(a: string, b: string, c: string)
    requires DOT !in a && DOT !in c
    ensures var token := a + [DOT] + b + [DOT] + c; var first, last := First(token, DOT), Last(token, DOT);
      0 <= first < last && token[first + 1..last] == b
  {
    var token := a + [DOT] + b + [DOT] + c;
    FirstIs(a, DOT, b + [DOT] + c);
    LastIs(a + [DOT] + b, DOT, c);
    assert token == a + [DOT] + (b + [DOT] + c);
  }

  /** From any other text, what lies between the first and the last dot is read. */
  lemma ExtractsBetweenDots(svc: Service, a: string, b: string, c: string)
    requires DOT !in a && DOT !in c
    ensures ExtractUserId(svc, a + [DOT] + b + [DOT] + c) == if Parse(b).Some? then Sub(Parse(b).value) else svc.other(b)
  {
    hide Parse, Sub, First, Last;
    BetweenDots(a, b, c);
  }

  lemma {:induction false} SubIsValid(ms: seq<Member>)
    requires ValidMembers(ms)
    ensures Sub(ms).UserId? ==> ValidUtf8(Sub(ms).id)
  {
    if ms != [] {
      SubIsValid(ms[..|ms| - 1]);
      assert ValidMember(ms[|ms| - 1]);
    }
  }

  /** An extracted user id is well-formed UTF-8, so a new token repeats it unchanged. */
  lemma ExtractedIsValid(svc: Service, token: string)
    ensures ExtractUserId(svc, token).UserId? ==> ValidUtf8(ExtractUserId(svc, token).id)
  {
    assert ValidUtf8("");
    hide Parse, Sub, First, Last, ValidUtf8;
    var first, last := First(token, DOT), Last(token, DOT);
    if 0 <= first < last && Parse(token[first + 1..last]).Some? {
      ParsedIsValid(token[first + 1..last]);
      SubIsValid(Parse(token[first + 1..last]).value);
    }
  }

  lemma NoDotInHex(s: string)
    requires AllHex(s)
    ensures DOT !in s
  {
  }

  lemma SignedIsValid(svc: Service, data: string)
    ensures ValidateToken(svc, data + [DOT] + Sign(svc, data))
  {
    var token := data + [DOT] + Sign(svc, data);
    SignatureShape(svc, data);
    NoDotInHex(Sign(svc, data));
    LastIs(data, DOT, Sign(svc, data));
    assert token[..|data|] == data && token[|data| + 1..] == Sign(svc, data);
  }

  /** Validation characterised: a token is valid exactly when it is some text, a dot and that text's
      signature. */
  lemma ValidExactly(svc: Service, token: string)
    ensures ValidateToken(svc, token) <==> exists data :: token == data + [DOT] + Sign(svc, data)
  {
    if ValidateToken(svc, token) {
      var data := token[..Last(token, DOT)];
      assert token == data + [DOT] + Sign(svc, data);
    }
    forall data | token == data + [DOT] + Sign(svc, data) ensures ValidateToken(svc, token) {
      SignedIsValid(svc, data);
    }
  }

  lemma HeaderHasNoDot()
    ensures DOT !in HEADER
  {
  }

  lemma SubOfClaims(userId: string, ttl: nat, now: Seconds)
    ensures Sub(Claims(userId, ttl, now)) == UserId(Sanitize(userId))
  {
  }

  /** Between the first and the last dot of a signed token lies its payload, dots included. */
  lemma PayloadIs(svc: Service, body: string)
    ensures var raw := HEADER + [DOT] + body; var token := raw + [DOT] + Sign(svc, raw);
      && First(token, DOT) == |HEADER| && Last(token, DOT) == |raw|
      && token[|HEADER| + 1..|raw|] == body
  {
    var raw := HEADER + [DOT] + body;
    var signature := Sign(svc, raw);
    var token := raw + [DOT] + signature;
    SignatureShape(svc, raw);
    NoDotInHex(signature);
    LastIs(raw, DOT, signature);
    HeaderHasNoDot();
    FirstIs(HEADER, DOT, body + [DOT] + signature);
    assert token == HEADER + [DOT] + (body + [DOT] + signature);
  }

  /** What is issued is valid and gives back the user id, with ill-formed UTF-8 replaced; so it gives back
      exactly the id it was issued for, dots, quotes and control characters included, if and only if that
      id is well-formed. */
  lemma IssueRoundTrip(svc: Service, userId: string, ttl: nat, now: Seconds)
    ensures var token := IssueToken(svc, userId, ttl, now);
      && ValidateToken(svc, token)
      && ExtractUserId(svc, token) == UserId(Sanitize(userId))
      && (ExtractUserId(svc, token) == UserId(userId) <==> ValidUtf8(userId))
  {
    ClaimsValid(userId, ttl, now);
    var body := Dump(Claims(userId, ttl, now));
    var raw := HEADER + [DOT] + body;
    var token := raw + [DOT] + Sign(svc, raw);
    assert ValidateToken(svc, token) by {
      SignedIsValid(svc, raw);
    }
    SanitizeExactly(userId);
    assert ExtractUserId(svc, token) == UserId(Sanitize(userId)) by {
      PayloadIs(svc, body);
      ObjectRoundTrip(Claims(userId, ttl, now));
      SubOfClaims(userId, ttl, now);
    }
  }

  lemma IssuedPayload(svc: Service, userId: string, ttl: nat, now: Seconds)
    ensures var token := IssueToken(svc, userId, ttl, now); var first, last := First(token, DOT), Last(token, DOT);
      0 <= first < last && Parse(token[first + 1..last]) == Some(Claims(userId, ttl, now))
  {
    ClaimsValid(userId, ttl, now);
    hide Parse, Dump, Claims, Sign, First, Last;
    PayloadIs(svc, Dump(Claims(userId, ttl, now)));
    ObjectRoundTrip(Claims(userId, ttl, now));
  }

  /** The payload of an issued token reads back member by member: issued now, for the given user, expiring after
      the given number of seconds, in unsigned 64-bit arithmetic. */
  lemma IssuedClaims(svc: Service, userId: string, ttl: nat, now: Seconds)
    ensures var token := IssueToken(svc, userId, ttl, now); var first, last := First(token, DOT), Last(token, DOT);
      && 0 <= first < last && Parse(token[first + 1..last]).Some?
      && var claims := Parse(token[first + 1..last]).value;
         |claims| == 3
         && Member("iat", Number(now)) in claims
         && Member("exp", Number((now + ttl) % 0x1_0000_0000_0000_0000)) in claims
         && Member("sub", Text(Sanitize(userId))) in claims
  {
    hide Parse, First, Last, IssueToken, Sanitize;
    IssuedPayload(svc, userId, ttl, now);
  }

  // ---------------------------------------------------------------- POST /refresh

  datatype Response = Ok(token: string) | Unauthorized | Fails

  /** Everything after the first space of the Authorization header; all of it if there is none. */
  function Credentials(auth: string): string {
    auth[First(auth, ' ') + 1..]
  }

  function Refresh(svc: Service, auth: string, now: Seconds): Response {
    var token := Credentials(auth);
    if !ValidateToken(svc, token) then Unauthorized
    else
      match ExtractUserId(svc, token)
      case Throws => Fails
      case UserId(id) => Ok(IssueToken(svc, id, 3600, now))
  }

  /** A refresh answers with a token exactly when the presented one is valid and its subject readable, and
      then names the same subject; this holds of every validly signed text, issued here or not, whatever form its
      payload has. */
  lemma RefreshKeepsUser(svc: Service, auth: string, now: Seconds)
    ensures var token, r := Credentials(auth), Refresh(svc, auth, now);
      && (r.Ok? <==> ValidateToken(svc, token) && ExtractUserId(svc, token).UserId?)
      && (r == Unauthorized <==> !ValidateToken(svc, token))
      && (r.Ok? ==> ValidateToken(svc, r.token) && ExtractUserId(svc, r.token) == ExtractUserId(svc, token))
  {
    var token, r := Credentials(auth), Refresh(svc, auth, now);
    if r.Ok? {
      var id := ExtractUserId(svc, token).id;
      ExtractedIsValid(svc, token);
      IssueRoundTrip(svc, id, 3600, now);
    }
  }

  /** One refresh: the scheme the token is presented under, and the clock. */
  datatype Turn = Turn(scheme: string, now: Seconds)

  /** The token after presenting it for a refresh again and again. */
  function Refreshed(svc: Service, token: string, turns: seq<Turn>): Response {
    if turns == [] then Ok(token)
    else
      match Refreshed(svc, token, turns[..|turns| - 1])
      case Ok(t) =>
        var turn := turns[|turns| - 1];
        Refresh(svc, turn.scheme + " " + t, turn.now)
      case other => other
  }

  lemma CredentialsOf(scheme: string, token: string)
    requires ' ' !in scheme
    ensures Credentials(scheme + " " + token) == token
  {
    FirstIs(scheme, ' ', token);
    assert scheme + " " + token == scheme + [' '] + token;
  }

  /** Round trip over refresh chains: for every user id and every number of refreshes, each under any
      space-free scheme and any clock, the token is accepted, stays valid and names the user the first
      token named; that is the user it was issued for if and only if the id is well-formed UTF-8. */
  lemma {:induction false} RefreshChain(svc: Service, userId: string, ttl: nat, now: Seconds, turns: seq<Turn>)
    requires forall i | 0 <= i < |turns| :: ' ' !in turns[i].scheme
    ensures var r := Refreshed(svc, IssueToken(svc, userId, ttl, now), turns);
      && r.Ok? && ValidateToken(svc, r.token) && ExtractUserId(svc, r.token) == UserId(Sanitize(userId))
      && (ExtractUserId(svc, r.token) == UserId(userId) <==> ValidUtf8(userId))
      && (turns != [] ==> r.token == IssueToken(svc, userId, 3600, turns[|turns| - 1].now))
  {
    var token := IssueToken(svc, userId, ttl, now);
    if turns == [] {
      IssueRoundTrip(svc, userId, ttl, now);
    } else {
      var turn := turns[|turns| - 1];
      RefreshChain(svc, userId, ttl, now, turns[..|turns| - 1]);
      var before := Refreshed(svc, token, turns[..|turns| - 1]).token;
      CredentialsOf(turn.scheme, before);
      SanitizeExactly(userId);
      assert IssueToken(svc, Sanitize(userId), 3600, turn.now) == IssueToken(svc, userId, 3600, turn.now);
      IssueRoundTrip(svc, userId, 3600, turn.now);
    }
  }
}
