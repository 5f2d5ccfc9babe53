/** What a request has to pass before CLN is asked about its rune
    (`src/grpc/interceptors/auth_layer.rs`), and who it is taken to come from
    (`src/grpc/interceptors/identity.rs`). */
module AuthGate {
  import opened Wrappers

  /** A header value; `Opaque` is one that is not visible ASCII text. */
  datatype HeaderValue = Text(value: string) | Opaque

  datatype Frame = Data(bytes: Bytes) | Trailers | ReadError

  datatype ClientIdentity = ClientIdentity(fingerprint: string, claimed: Option<string>)

  /** `hydrated` is an identity set by an outer layer, `peerCerts` the fingerprints of the
      TLS peer's chain, leaf first; `runeValid` is CLN's answer about the rune. */
  datatype Request = Request(
    hydrated: Option<ClientIdentity>,
    peerCerts: Option<seq<string>>,
    clientId: Option<HeaderValue>,
    path: string,
    runes: seq<HeaderValue>,
    body: seq<Frame>,
    runeValid: bool)

  datatype Refusal = NoCertificate | ManyRunes | BadRune | NoRune | UnknownPath | BodyTooLarge | BodyUnreadable

  const MAX_RUNE_LEN: nat := 4096

  function RuneMethodForPath(path: string): Option<string> {
    match path
    case "/cln.NodeServices/Invoice" => Some("invoice")
    case "/cln.NodeServices/Getinfo" => Some("getinfo")
    case "/cln.NodeServices/Xpay" => Some("xpay")
    case "/cln.NodeServices/InvoiceStream" => Some("invoice")
    case "/cln.NodeServices/XpayStreamWatch" => Some("xpay")
    case "/cln.NodeServices/XpayStream" => Some("xpay_stream")
    case "/cln.NodeServices/InvoiceWatch" => Some("invoice_watch")
    case "/cln.NodeServices/WatchChannels" => Some("watch_channels")
    case "/cln.NodeServices/WatchPeers" => Some("watch_peers")
    case "/cln.NodeServices/WatchSystem" => Some("watch_system")
    case _ => None
  }

  predicate IsRuneChar(c: char) {
    '0' <= c <= '9' || 'a' <= c <= 'z' || 'A' <= c <= 'Z' || c in "-_=/+&|,.:"
  }

  predicate IsValidRuneCharset(rune: string) {
    rune != [] && forall i :: 0 <= i < |rune| ==> IsRuneChar(rune[i])
  }

  predicate IsWellFormedRune(value: HeaderValue) {
    value.Text? && |value.value| <= MAX_RUNE_LEN && IsValidRuneCharset(value.value)
  }

  // ---- identity ----

  function IdentityFromExtensions(r: Request): Option<ClientIdentity> {
    if r.hydrated.Some? then r.hydrated
    else if r.peerCerts.None? || r.peerCerts.value == [] then None
    else Some(ClientIdentity(r.peerCerts.value[0], None))
  }

  /** The identity layer: the `x-client-id` header only ever fills the claim. */
  function Identify(r: Request): Option<ClientIdentity> {
    var id := IdentityFromExtensions(r);
    if id.None? || id.value.claimed.Some? then id
    else if r.clientId.Some? && r.clientId.value.Text? && r.clientId.value.value != []
    then Some(id.value.(claimed := Some(r.clientId.value.value)))
    else id
  }

  function FingerprintOf(r: Request): Option<string> {
    match Identify(r) case None => None case Some(id) => Some(id.fingerprint)
  }

  /** The request with everything the client says about itself removed. */
  function WithoutClaims(r: Request): Request {
    r.(clientId := None,
       hydrated := match r.hydrated case None => None case Some(id) => Some(id.(claimed := None)))
  }

  lemma ClaimsDoNotIdentify(r: Request, clientId: Option<HeaderValue>)
    ensures FingerprintOf(r.(clientId := clientId)) == FingerprintOf(r)
    ensures FingerprintOf(WithoutClaims(r)) == FingerprintOf(r)
  {
  }

  // ---- the body ----

  function ReadBody(body: seq<Frame>, max: nat, buf: Bytes): Result<Bytes, Refusal>
    decreases |body|
  {
    if body == [] then Ok(buf)
    else
      match body[0]
      case ReadError => Err(BodyUnreadable)
      case Trailers => ReadBody(body[1..], max, buf)
      case Data(bytes) =>
        if |buf| + |bytes| > max then Err(BodyTooLarge)
        else ReadBody(body[1..], max, buf + bytes)
  }

  function AllBytes(body: seq<Frame>): Bytes {
    if body == [] then [] else (if body[0].Data? then body[0].bytes else []) + AllBytes(body[1..])
  }

  predicate AnyReadError(body: seq<Frame>) {
    exists i :: 0 <= i < |body| && body[i].ReadError?
  }

  /** A body is accepted exactly when it can be read and all of it fits; it is then handed
      on unchanged. */
  lemma {:induction false} ReadBodyExact(body: seq<Frame>, max: nat, buf: Bytes)
    requires |buf| <= max
    ensures ReadBody(body, max, buf).Ok? <==> !AnyReadError(body) && |buf| + |AllBytes(body)| <= max
    ensures ReadBody(body, max, buf).Ok? ==> ReadBody(body, max, buf).value == buf + AllBytes(body)
    decreases |body|
  {
    if body != [] {
      var rest := body[1..];
      AnyErrorSplit(body);
      if body[0].Trailers? {
        ReadBodyExact(rest, max, buf);
        assert [] + AllBytes(rest) == AllBytes(rest);
      } else if body[0].Data? && |buf| + |body[0].bytes| <= max {
        ReadBodyExact(rest, max, buf + body[0].bytes);
        assert buf + body[0].bytes + AllBytes(rest) == buf + AllBytes(body);
      }
    }
  }

  /** `read_body_limited`: never buffers more than the limit. */
  method ReadBodyLimited(body: seq<Frame>, maxBytes: nat) returns (r: Result<Bytes, Refusal>)
    ensures r == ReadBody(body, maxBytes, [])
    ensures r.Ok? <==> !AnyReadError(body) && |AllBytes(body)| <= maxBytes
    ensures r.Ok? ==> r.value == AllBytes(body)
  {
    ReadBodyExact(body, maxBytes, []);
    var buf: Bytes := [];
    for i := 0 to |body|
      invariant |buf| <= maxBytes
      invariant ReadBody(body[i..], maxBytes, buf) == ReadBody(body, maxBytes, [])
    {
      assert body[i..][1..] == body[i + 1..];
      match body[i] {
        case ReadError => return Err(BodyUnreadable);
        case Trailers =>
        case Data(bytes) =>
          if |buf| + |bytes| > maxBytes {
            return Err(BodyTooLarge);
          }
          buf := buf + bytes;
      }
    }
    return Ok(buf);
  }

  /** Everything the auth layer checks before it calls CLN; on success, the CLN method. */
  function Gate(r: Request, maxBody: nat): Result<string, Refusal> {
    if |r.runes| > 1 then Err(ManyRunes)
    else if |r.runes| == 0 then Err(NoRune)
    else if !IsWellFormedRune(r.runes[0]) then Err(BadRune)
    else if RuneMethodForPath(r.path).None? then Err(UnknownPath)
    else
      match ReadBody(r.body, maxBody, [])
      case Err(e) => Err(e)
      case Ok(_) => Ok(RuneMethodForPath(r.path).value)
  }

  /** `AuthService::call` up to its call of `check_rune`. */
  method CheckRequest(r: Request, maxBodyBytes: nat) returns (g: Result<string, Refusal>)
    ensures g == Gate(r, maxBodyBytes)
    ensures g.Ok? <==>
      && |r.runes| == 1 && r.runes[0].Text?
      && |r.runes[0].value| <= MAX_RUNE_LEN && IsValidRuneCharset(r.runes[0].value)
      && RuneMethodForPath(r.path).Some?
      && !AnyReadError(r.body) && |AllBytes(r.body)| <= maxBodyBytes
  {
    if |r.runes| > 1 {
      return Err(ManyRunes);
    }
    if |r.runes| == 0 {
      return Err(NoRune);
    }
    var first := r.runes[0];
    if first.Opaque? || |first.value| > MAX_RUNE_LEN || !IsValidRuneCharset(first.value) {
      return Err(BadRune);
    }
    var name := RuneMethodForPath(r.path);
    if name.None? {
      return Err(UnknownPath);
    }
    var body := ReadBodyLimited(r.body, maxBodyBytes);
    if body.Err? {
      return Err(body.error);
    }
    return Ok(name.value);
  }

  // ---- what the names and the alphabet are ----

  const SERVICE := "/cln.NodeServices/"

  /** The calls that CLN is asked about, by their gRPC names. */
  const RPCS := [
    "Invoice", "Getinfo", "Xpay", "InvoiceStream", "XpayStreamWatch", "XpayStream",
    "InvoiceWatch", "WatchChannels", "WatchPeers", "WatchSystem"]

  predicate IsUpper(c: char) { 'A' <= c <= 'Z' }

  function LowerCase(c: char): char {
    if IsUpper(c) then (c as int + 32) as char else c
  }

  /** Snake case: every capital is a small letter after an underscore, the first without. */
  function Snake(camel: string): string {
    if camel == [] then []
    else
      var n := |camel| - 1;
      Snake(camel[..n]) + (if IsUpper(camel[n]) && n > 0 then "_" else "") + [LowerCase(camel[n])]
  }

  /** The CLN method of a call: its name in snake case, but the two calls that stream what
      comes of an invoice or a payment stand for the invoice and the payment. */
  function ClnMethod(rpc: string): string {
    if rpc == "InvoiceStream" then "invoice" else if rpc == "XpayStreamWatch" then "xpay" else Snake(rpc)
  }

  lemma SnakeOne(camel: string, c: char)
    ensures Snake(camel + [c]) == Snake(camel) + (if IsUpper(c) && camel != [] then "_" else "") + [LowerCase(c)]
  {
    assert (camel + [c])[..|camel|] == camel;
  }

  /** A further word. */
  lemma {:induction false} SnakeWord(camel: string, word: string)
    requires forall i :: 0 <= i < |word| ==> 'a' <= word[i] <= 'z'
    ensures Snake(camel + word) == Snake(camel) + word
  {
    if word == [] {
      assert camel + word == camel && Snake(camel) + word == Snake(camel);
    } else {
      var n := |word| - 1;
      SnakeWord(camel, word[..n]);
      assert camel + word == camel + word[..n] + [word[n]];
      SnakeOne(camel + word[..n], word[n]);
      assert Snake(camel) + word[..n] + "" + [word[n]] == Snake(camel) + word;
    }
  }

  lemma SnakeCapital(camel: string, c: char, word: string)
    requires IsUpper(c) && forall i :: 0 <= i < |word| ==> 'a' <= word[i] <= 'z'
    ensures Snake(camel + [c] + word) == Snake(camel) + (if camel == [] then "" else "_") + [LowerCase(c)] + word
  {
    SnakeOne(camel, c);
    SnakeWord(camel + [c], word);
  }

  lemma OneWord(rpc: string, c: char, word: string)
    requires rpc == [c] + word && IsUpper(c) && forall i :: 0 <= i < |word| ==> 'a' <= word[i] <= 'z'
    ensures Snake(rpc) == [LowerCase(c)] + word
  {
    SnakeCapital([], c, word);
    assert [] + [c] + word == rpc;
    assert Snake([]) + "" + [LowerCase(c)] + word == [LowerCase(c)] + word;
  }

  lemma TwoWords(rpc: string, first: string, c: char, word: string)
    requires rpc == first + [c] + word && first != []
    requires IsUpper(c) && forall i :: 0 <= i < |word| ==> 'a' <= word[i] <= 'z'
    ensures Snake(rpc) == Snake(first) + "_" + [LowerCase(c)] + word
  {
    SnakeCapital(first, c, word);
  }

  lemma SnakePlain()
    ensures Snake("Invoice") == "invoice" && Snake("Getinfo") == "getinfo" && Snake("Xpay") == "xpay"
    ensures Snake("Watch") == "watch"
  {
    hide Snake;
    OneWord("Invoice", 'I', "nvoice");
    OneWord("Getinfo", 'G', "etinfo");
    OneWord("Xpay", 'X', "pay");
    OneWord("Watch", 'W', "atch");
  }

  lemma SnakeStreams()
    ensures Snake("XpayStream") == "xpay_stream" && Snake("InvoiceWatch") == "invoice_watch"
  {
    hide Snake;
    SnakePlain();
    TwoWords("XpayStream", "Xpay", 'S', "tream");
    TwoWords("InvoiceWatch", "Invoice", 'W', "atch");
  }

  lemma SnakeChannels()
    ensures Snake("WatchChannels") == "watch_channels"
  {
    hide Snake;
    SnakePlain();
    TwoWords("WatchChannels", "Watch", 'C', "hannels");
  }

  lemma SnakePeers()
    ensures Snake("WatchPeers") == "watch_peers" && Snake("WatchSystem") == "watch_system"
  {
    hide Snake;
    SnakePlain();
    TwoWords("WatchPeers", "Watch", 'P', "eers");
    TwoWords("WatchSystem", "Watch", 'S', "ystem");
  }

  lemma MethodNames(i: nat)
    requires i < |RPCS|
    ensures ClnMethod(RPCS[i]) ==
      ["invoice", "getinfo", "xpay", "invoice", "xpay", "xpay_stream",
       "invoice_watch", "watch_channels", "watch_peers", "watch_system"][i]
  {
    SnakePlain();
    SnakeStreams();
    SnakeChannels();
    SnakePeers();
    hide Snake;
  }

  lemma NamedPath(i: nat)
    requires i < |RPCS|
    ensures RuneMethodForPath(SERVICE + RPCS[i]) == Some(ClnMethod(RPCS[i]))
  {
    MethodNames(i);
    WrittenOut(i);
    hide ClnMethod;
  }

  lemma WrittenOut(i: nat)
    requires i < |RPCS|
    ensures SERVICE + RPCS[i] ==
      ["/cln.NodeServices/Invoice", "/cln.NodeServices/Getinfo", "/cln.NodeServices/Xpay",
       "/cln.NodeServices/InvoiceStream", "/cln.NodeServices/XpayStreamWatch", "/cln.NodeServices/XpayStream",
       "/cln.NodeServices/InvoiceWatch", "/cln.NodeServices/WatchChannels", "/cln.NodeServices/WatchPeers",
       "/cln.NodeServices/WatchSystem"][i]
  {
  }

  /** The paths of the ten calls are known, and no other; each stands for its own method. */
  lemma PathsNameMethods(path: string, name: string)
    ensures RuneMethodForPath(path) == Some(name) <==>
            exists i :: 0 <= i < |RPCS| && path == SERVICE + RPCS[i] && name == ClnMethod(RPCS[i])
  {
    if RuneMethodForPath(path).Some? { KnownPath(path); }
    forall i | 0 <= i < |RPCS| ensures RuneMethodForPath(SERVICE + RPCS[i]) == Some(ClnMethod(RPCS[i])) {
      NamedPath(i);
    }
    hide RuneMethodForPath, ClnMethod;
  }

  lemma KnownPath(path: string)
    requires RuneMethodForPath(path).Some?
    ensures exists i :: 0 <= i < |RPCS| && path == SERVICE + RPCS[i]
  {
    var rest := if |path| >= |SERVICE| then path[|SERVICE|..] else "";
    assert path == SERVICE + rest;
    assert rest in RPCS;
  }

  const RUNE_SEPARATORS := {'-', '_', '=', '/', '+', '&', '|', ',', '.', ':'}

  /** The letters, the digits and the ten separators. */
  predicate InRuneAlphabet(c: char) {
    'a' <= c <= 'z' || 'A' <= c <= 'Z' || '0' <= c <= '9' || c in RUNE_SEPARATORS
  }

  lemma RuneCharsAre(c: char)
    ensures IsRuneChar(c) <==> InRuneAlphabet(c)
  {
    var s := "-_=/+&|,.:";
    assert s[0] == '-' && s[1] == '_' && s[2] == '=' && s[3] == '/' && s[4] == '+' && s[5] == '&' && s[6] == '|'
      && s[7] == ',' && s[8] == '.' && s[9] == ':';
  }

  /** What a request must look like for CLN to be asked, and what CLN is then asked about, in
      the protocol's own terms: one rune of 1 to 4096 characters of the alphabet, the path of
      one of the ten calls, and a readable body within the limit. */
  lemma AskedExactly(r: Request, maxBody: nat, name: string)
    ensures Gate(r, maxBody) == Ok(name) <==>
      && |r.runes| == 1 && r.runes[0].Text? && 1 <= |r.runes[0].value| <= 4096
      && (forall i :: 0 <= i < |r.runes[0].value| ==> InRuneAlphabet(r.runes[0].value[i]))
      && !AnyReadError(r.body) && |AllBytes(r.body)| <= maxBody
      && exists i :: 0 <= i < |RPCS| && r.path == SERVICE + RPCS[i] && name == ClnMethod(RPCS[i])
  {
    PathsNameMethods(r.path, name);
    ReadBodyExact(r.body, maxBody, []);
    forall c: char ensures IsRuneChar(c) <==> InRuneAlphabet(c) { RuneCharsAre(c); }
    hide IsRuneChar, InRuneAlphabet, RuneMethodForPath, ClnMethod, ReadBody, AnyReadError, AllBytes;
  }

  // ---- which refusal ----

  /** The data of a body up to the first error. */
  function BytesBeforeError(body: seq<Frame>): Bytes {
    if body == [] || body[0].ReadError? then []
    else (if body[0].Data? then body[0].bytes else []) + BytesBeforeError(body[1..])
  }

  /** A body is too large when it exceeds the limit before it fails, and unreadable when it
      fails before it exceeds the limit. */
  lemma {:induction false} BodyRefusedExactly(body: seq<Frame>, max: nat, buf: Bytes)
    requires |buf| <= max
    ensures ReadBody(body, max, buf) == Err(BodyTooLarge) <==> |buf| + |BytesBeforeError(body)| > max
    ensures ReadBody(body, max, buf) == Err(BodyUnreadable) <==>
            AnyReadError(body) && |buf| + |BytesBeforeError(body)| <= max
    decreases |body|
  {
    if body != [] {
      var rest := body[1..];
      AnyErrorSplit(body);
      hide AnyReadError;
      if body[0].Trailers? {
        BodyRefusedExactly(rest, max, buf);
      } else if body[0].Data? && |buf| + |body[0].bytes| <= max {
        BodyRefusedExactly(rest, max, buf + body[0].bytes);
      }
    }
  }

  lemma AnyErrorSplit(body: seq<Frame>)
    requires body != []
    ensures AnyReadError(body) <==> body[0].ReadError? || AnyReadError(body[1..])
  {
    var rest := body[1..];
    if AnyReadError(rest) {
      var i :| 0 <= i < |rest| && rest[i].ReadError?;
      assert body[i + 1].ReadError?;
    }
    if AnyReadError(body) && !body[0].ReadError? {
      var i :| 0 <= i < |body| && body[i].ReadError?;
      assert rest[i - 1].ReadError?;
    }
  }

  ghost predicate OneGoodRune(r: Request) {
    && |r.runes| == 1 && r.runes[0].Text? && 1 <= |r.runes[0].value| <= 4096
    && forall i :: 0 <= i < |r.runes[0].value| ==> InRuneAlphabet(r.runes[0].value[i])
  }

  predicate KnownCall(path: string) {
    exists i :: 0 <= i < |RPCS| && path == SERVICE + RPCS[i]
  }

  /** Each refusal, exactly: the number of runes, then the rune, the path, the body. */
  lemma RefusedExactly(r: Request, maxBody: nat)
    ensures Gate(r, maxBody) == Err(ManyRunes) <==> |r.runes| > 1
    ensures Gate(r, maxBody) == Err(NoRune) <==> r.runes == []
    ensures Gate(r, maxBody) == Err(BadRune) <==> |r.runes| == 1 && !OneGoodRune(r)
    ensures Gate(r, maxBody) == Err(UnknownPath) <==> OneGoodRune(r) && !KnownCall(r.path)
    ensures Gate(r, maxBody) == Err(BodyTooLarge) <==>
            OneGoodRune(r) && KnownCall(r.path) && |BytesBeforeError(r.body)| > maxBody
    ensures Gate(r, maxBody) == Err(BodyUnreadable) <==>
            OneGoodRune(r) && KnownCall(r.path) && AnyReadError(r.body) && |BytesBeforeError(r.body)| <= maxBody
  {
    KnownExactly(r.path);
    BodyRefusedExactly(r.body, maxBody, []);
    ReadBodyErrors(r.body, maxBody, []);
    forall c: char ensures IsRuneChar(c) <==> InRuneAlphabet(c) { RuneCharsAre(c); }
    hide IsRuneChar, InRuneAlphabet, RuneMethodForPath, ReadBody, AnyReadError, BytesBeforeError, KnownCall;
  }

  lemma {:induction false} ReadBodyErrors(body: seq<Frame>, max: nat, buf: Bytes)
    ensures ReadBody(body, max, buf).Err? ==> ReadBody(body, max, buf).error in {BodyTooLarge, BodyUnreadable}
    decreases |body|
  {
    if body != [] {
      ReadBodyErrors(body[1..], max, buf);
      if body[0].Data? { ReadBodyErrors(body[1..], max, buf + body[0].bytes); }
    }
  }

  lemma KnownExactly(path: string)
    ensures RuneMethodForPath(path).Some? <==> KnownCall(path)
  {
    if RuneMethodForPath(path).Some? { KnownPath(path); }
    forall i | 0 <= i < |RPCS| ensures RuneMethodForPath(SERVICE + RPCS[i]).Some? {
      NamedPath(i);
    }
    hide RuneMethodForPath;
  }

  /** The request with other certificates behind the leaf. */
  function Rechained(r: Request, rest: seq<string>): Request {
    if r.peerCerts.Some? && r.peerCerts.value != [] then r.(peerCerts := Some([r.peerCerts.value[0]] + rest)) else r
  }

  function ClaimOf(r: Request): Option<string> {
    if r.hydrated.Some? && r.hydrated.value.claimed.Some? then r.hydrated.value.claimed
    else
      match r.clientId
      case Some(Text(value)) => if value != "" then Some(value) else None
      case _ => None
  }

  /** Whom a request is served as: the identity that an outer layer has set, or else the leaf
      of the TLS chain. The header gives the claim where no outer layer has. */
  lemma ServedAs(r: Request, fp: string)
    ensures Identify(r).Some? ==> Identify(r).value.claimed == ClaimOf(r)
    ensures FingerprintOf(r) == Some(fp) <==>
      if r.hydrated.Some? then r.hydrated.value.fingerprint == fp
      else r.peerCerts.Some? && r.peerCerts.value != [] && r.peerCerts.value[0] == fp
  {
  }

  /** Only the leaf of the chain identifies a client. */
  lemma LeafIdentifies(r: Request, rest: seq<string>)
    ensures Identify(Rechained(r, rest)) == Identify(r)
  {
  }
}
