/**
Stored credentials: what may be shown of one, and the form that is merged over
one (src/credentials.rs, src/credentials_api.rs, crates/gateway/src/credentials.rs
and the connectors' manifests).
*/
module Credentials {
  import opened Wrappers
  import AuthApi

  // ---- tables --------------------------------------------------------------------------

  // The names the tables speak of; any other that a form or a blob may hold.
  datatype Code =
    | ALPACA_CODE | BINANCE_CODE | BYBIT_CODE | COINBASE_CODE | OKX_CODE | IBKR_CODE
    | OtherCode(text: string)
  datatype Kind = Alpaca | BinanceFix | Bybit | Coinbase | Okx | IbkrFix | OtherKind(text: string)
  datatype Name =
    | Key | Secret | ApiKey | ApiSecret | PrivateKey | Passphrase | Password
    | Host | PortNumber | SenderCompId | TargetCompId | Ssl
    | OtherName(text: string)

  datatype Shown = Clear | Hidden | Tail

  datatype FieldType = PlainText | Port | Bool(byDefault: bool)

  // A connector's credential: its fields in the order the form has them, those that
  // are not plain text, and how each may be shown.
  datatype Manifest = Manifest(
    code: Code,
    kind: Kind,
    fields: seq<Name>,
    types: map<Name, FieldType>,
    redaction: seq<(Name, Shown)>)
  {
    function TypeOf(name: Name): FieldType {
      if name in types then types[name] else PlainText
    }

    // Form and view speak of the same fields, each once.
    ghost predicate Valid() {
      AskedOnce() && ShownOnce() && ShowsAll() && ShowsOnly()
    }

    predicate AskedOnce() {
      forall i, j | 0 <= i < j < |fields| :: fields[i] != fields[j]
    }

    predicate ShownOnce() {
      forall i, j | 0 <= i < j < |redaction| :: redaction[i].0 != redaction[j].0
    }

    ghost predicate ShowsOnly() {
      forall i | 0 <= i < |redaction| :: redaction[i].0 in fields
    }

    ghost predicate ShowsAll() {
      forall f <- fields :: exists i :: 0 <= i < |redaction| && redaction[i].0 == f
    }
  }

  const ALPACA := Manifest(ALPACA_CODE, Alpaca, [Key, Secret], map[], [(Key, Tail), (Secret, Hidden)])
  const BINANCE := Manifest(BINANCE_CODE, BinanceFix,
    [ApiKey, PrivateKey, Host, PortNumber, SenderCompId, TargetCompId], map[PortNumber := Port],
    [(Host, Clear), (PortNumber, Clear), (SenderCompId, Clear), (TargetCompId, Clear), (ApiKey, Hidden),
        (PrivateKey, Hidden)])
  const BYBIT := Manifest(BYBIT_CODE, Bybit, [ApiKey, ApiSecret], map[], [(ApiKey, Hidden), (ApiSecret, Hidden)])
  const COINBASE := Manifest(COINBASE_CODE, Coinbase, [ApiKey, PrivateKey], map[],
      [(ApiKey, Hidden), (PrivateKey, Hidden)])
  const OKX := Manifest(OKX_CODE, Okx, [ApiKey, ApiSecret, Passphrase], map[],
    [(ApiKey, Hidden), (ApiSecret, Hidden), (Passphrase, Hidden)])
  const IBKR := Manifest(IBKR_CODE, IbkrFix,
    [Password, Host, PortNumber, SenderCompId, TargetCompId, Ssl], map[PortNumber := Port, Ssl := Bool(true)],
    [(Host, Clear), (PortNumber, Clear), (SenderCompId, Clear), (TargetCompId, Clear), (Ssl, Clear),
        (Password, Hidden)])

  const CONNECTORS: seq<Manifest> := [ALPACA, BINANCE, BYBIT, COINBASE, OKX, IBKR]

  function ByCode(connectors: seq<Manifest>, code: Code): Option<Manifest> {
    if connectors == [] then None
    else if connectors[0].code == code then Some(connectors[0])
    else ByCode(connectors[1..], code)
  }

  function ByKind(connectors: seq<Manifest>, kind: Kind): Option<Manifest> {
    if connectors == [] then None
    else if connectors[0].kind == kind then Some(connectors[0])
    else ByKind(connectors[1..], kind)
  }

  // ---- values ---------------------------------------------------------------------------

  // A JSON value; `Other` is one no credential field has.
  datatype Value = Text(text: string) | Number(n: nat) | Flag(b: bool) | Other(rendered: string)

  datatype Credential = Credential(kind: Kind, fields: map<Name, Value>)

  function BoolText(b: bool): string { if b then "true" else "false" }

  function TextOf(v: Value): string {
    match v
    case Text(s) => s
    case Number(n) => AuthApi.Decimal(n)
    case Flag(b) => BoolText(b)
    case Other(s) => s
  }

  function Stored(c: Credential, name: Name): Option<Value> {
    Lookup(c.fields, name)
  }

  // ---- showing --------------------------------------------------------------------------

  // A field on the wire: a value that may be sent back, or none, and perhaps a hint.
  datatype RedactedField = RedactedField(name: Name, value: Option<string>, secret: bool, hint: Option<string>)

  function Tail4(s: string): string {
    if |s| <= 4 then "" else s[|s| - 4..]
  }

  function DefaultText(t: FieldType): string {
    if t.Bool? then BoolText(t.byDefault) else ""
  }

  function ShownText(t: FieldType, stored: Option<Value>): string {
    if stored.Some? then TextOf(stored.value) else DefaultText(t)
  }

  function ShowField(name: Name, how: Shown, t: FieldType, stored: Option<Value>): RedactedField {
    match how
    case Clear => RedactedField(name, Some(ShownText(t, stored)), false, None)
    case Hidden => RedactedField(name, None, true, None)
    case Tail =>
      RedactedField(name, None, false, Some("\U{2026}" + Tail4(if stored.Some? then TextOf(stored.value) else "")))
  }

  // Nothing is shown of a kind no connector owns.
  function Redact(connectors: seq<Manifest>, c: Credential): (view: seq<RedactedField>)
  {
    match ByKind(connectors, c.kind)
    case None => []
    case Some(m) => ShowAll(m, c, m.redaction)
  }

  function ShowAll(m: Manifest, c: Credential, redaction: seq<(Name, Shown)>): (view: seq<RedactedField>)
    ensures |view| == |redaction|
    ensures forall i | 0 <= i < |view| ::
              view[i] == ShowField(redaction[i].0, redaction[i].1, m.TypeOf(redaction[i].0), Stored(c, redaction[i].0))
  {
    if redaction == [] then []
    else
      [ShowField(redaction[0].0, redaction[0].1, m.TypeOf(redaction[0].0), Stored(c, redaction[0].0))]
      + ShowAll(m, c, redaction[1..])
  }

  /** Only a field in the clear carries a value to send back, its own text or the default
      it would have; a hint is at most the last four characters, of a longer text. */
  lemma WithheldStaysWithheld(name: Name, how: Shown, t: FieldType, stored: Option<Value>)
    ensures var f := ShowField(name, how, t, stored);
            && f.name == name && (f.value.Some? <==> how == Clear) && (f.secret <==> how == Hidden)
            && (f.hint.Some? <==> how == Tail)
            && (how == Clear ==>
                  match stored
                  case None =>
                    f.value == Some(if t == Bool(true) then "true" else if t == Bool(false) then "false" else "")
                  case Some(Text(s)) => f.value == Some(s)
                  case Some(Number(n)) => f.value == Some(AuthApi.Decimal(n))
                  case Some(Flag(b)) => f.value == Some(if b then "true" else "false")
                  case Some(Other(s)) => f.value == Some(s))
            && (how == Tail && stored.None? ==> f.hint.value == "\U{2026}")
            && (how == Tail && stored.Some? ==>
                  var s := TextOf(stored.value);
                  (|s| <= 4 ==> f.hint.value == "\U{2026}") && (|s| > 4 ==> f.hint.value == "\U{2026}" + s[|s| - 4..]))
  {}

  /** The view tells nothing but the fields in the clear and the last four characters
      of the tailed ones longer than four: credentials that agree on those look alike. */
  lemma ViewTellsNoMore(connectors: seq<Manifest>, c: Credential, d: Credential)
    requires c.kind == d.kind
    requires ByKind(connectors, c.kind).Some? ==>
               forall e <- ByKind(connectors, c.kind).value.redaction ::
                 match e.1
                 case Clear => Stored(c, e.0) == Stored(d, e.0)
                 case Hidden => true
                 case Tail =>
                   ShowField(e.0, Tail, PlainText, Stored(c, e.0)).hint
                   == ShowField(e.0, Tail, PlainText, Stored(d, e.0)).hint
    ensures Redact(connectors, c) == Redact(connectors, d)
  {
    if ByKind(connectors, c.kind).Some? {
      var m := ByKind(connectors, c.kind).value;
      var a, b := ShowAll(m, c, m.redaction), ShowAll(m, d, m.redaction);
      forall i | 0 <= i < |a| ensures a[i] == b[i] {
        assert m.redaction[i] in m.redaction;
      }
    }
  }

  // ---- merging --------------------------------------------------------------------------

  type Submission = map<Name, string>

  datatype CredentialError = UnknownKind(code: Code) | MissingField(name: Name) | BadField(field: Name)

  function Get(sub: Submission, name: Name): Option<string> {
    if name in sub && sub[name] != "" then Some(sub[name]) else None
  }

  predicate AllDigits(s: string) {
    forall i | 0 <= i < |s| :: '0' <= s[i] <= '9'
  }

  function NatOf(s: string): nat
    requires AllDigits(s)
  {
    if s == "" then 0 else 10 * NatOf(s[..|s| - 1]) + (s[|s| - 1] as int - '0' as int)
  }

  // u16::from_str: digits, after one plus sign at most.
  function ParseU16(s: string): Option<nat> {
    var digits := if s != "" && s[0] == '+' then s[1..] else s;
    if digits == "" || !AllDigits(digits) then None
    else if NatOf(digits) <= 65535 then Some(NatOf(digits))
    else None
  }

  function ParseBool(s: string): Option<bool> {
    if s == "true" then Some(true) else if s == "false" then Some(false) else None
  }

  // A submitted text as a value of the field's type.
  function Parsed(name: Name, t: FieldType, text: string): Result<Value, CredentialError> {
    match t
    case PlainText => Ok(Text(text))
    case Port => (match ParseU16(text) case Some(n) => Ok(Number(n)) case None => Err(BadField(name)))
    case Bool(_) => (match ParseBool(text) case Some(b) => Ok(Flag(b)) case None => Err(BadField(name)))
  }

  // What is kept where nothing was submitted.
  function Kept(name: Name, t: FieldType, stored: Option<Value>): Result<Value, CredentialError> {
    match t
    case PlainText => if stored.Some? && stored.value.Text? then Ok(stored.value) else Err(MissingField(name))
    case Port => if stored.Some? && stored.value.Number? && stored.value.n <= 65535 then Ok(stored.value)
        else Err(MissingField(name))
    case Bool(byDefault) => Ok(if stored.Some? && stored.value.Flag? then stored.value else Flag(byDefault))
  }

  function Merged(name: Name, t: FieldType, stored: Option<Value>, sub: Submission): Result<Value, CredentialError> {
    match Get(sub, name)
    case Some(text) => Parsed(name, t, text)
    case None => Kept(name, t, stored)
  }

  // What a field carries over from: nothing, from a credential of another kind.
  function CarriedOver(m: Manifest, existing: Option<Credential>, name: Name): Option<Value> {
    if existing.Some? && existing.value.kind == m.kind then Stored(existing.value, name) else None
  }

  function MergedField(m: Manifest, existing: Option<Credential>, sub: Submission, name: Name)
      : Result<Value, CredentialError> {
    Merged(name, m.TypeOf(name), CarriedOver(m, existing, name), sub)
  }

  // Every field merges, and the result is exactly the merged fields.
  ghost predicate IsMerge(m: Manifest, existing: Option<Credential>, sub: Submission, c: Credential) {
    && c.kind == m.kind && (forall f :: f in c.fields <==> f in m.fields)
    && forall f <- m.fields :: MergedField(m, existing, sub, f) == Ok(c.fields[f])
  }

  predicate FirstError(m: Manifest, existing: Option<Credential>, sub: Submission, i: nat, e: CredentialError) {
    && i < |m.fields| && MergedField(m, existing, sub, m.fields[i]) == Err(e)
    && forall j | 0 <= j < i :: MergedField(m, existing, sub, m.fields[j]).Ok?
  }

  /** A form over a stored credential: each field submitted, or else kept; or the
      error of the first field that is neither. */
  method ParseBroker(connectors: seq<Manifest>, code: Code, existing: Option<Credential>, sub: Submission)
    returns (r: Result<Credential, CredentialError>)
    ensures ByCode(connectors, code).None? ==> r == Err(UnknownKind(code))
    ensures ByCode(connectors, code).Some? && r.Ok? ==> IsMerge(ByCode(connectors, code).value, existing, sub, r.value)
    ensures ByCode(connectors, code).Some? && r.Err? ==>
              exists i :: FirstError(ByCode(connectors, code).value, existing, sub, i, r.error)
  {
    var found := ByCode(connectors, code);
    if found.None? {
      return Err(UnknownKind(code));
    }
    var m := found.value;
    var fields: map<Name, Value> := map[];
    var i := 0;
    while i < |m.fields|
      invariant 0 <= i <= |m.fields|
      invariant forall f :: f in fields <==> f in m.fields[..i]
      invariant forall f | f in fields :: MergedField(m, existing, sub, f) == Ok(fields[f])
      invariant forall j | 0 <= j < i :: MergedField(m, existing, sub, m.fields[j]).Ok?
    {
      match MergedField(m, existing, sub, m.fields[i])
      case Err(e) =>
        assert FirstError(m, existing, sub, i, e);
        return Err(e);
      case Ok(v) =>
        fields := fields[m.fields[i] := v];
        i := i + 1;
    }
    assert m.fields[..i] == m.fields;
    r := Ok(Credential(m.kind, fields));
  }

  // ---- numbers print and parse back ------------------------------------------------------

  lemma {:induction false} DecimalParses(n: nat)
    ensures var s := AuthApi.Decimal(n); AllDigits(s) && NatOf(s) == n
    decreases n
  {
    var s := AuthApi.Decimal(n);
    if n >= 10 {
      DecimalParses(n / 10);
      assert s[..|s| - 1] == AuthApi.Decimal(n / 10);
    } else {
      assert s[..0] == "" && NatOf(s[..0]) == 0;
    }
  }

  lemma PortParses(n: nat)
    ensures ParseU16(AuthApi.Decimal(n)) == if n <= 65535 then Some(n) else None
  {
    DecimalParses(n);
  }

  predicate AllZeros(s: string) {
    forall i | 0 <= i < |s| :: s[i] == '0'
  }

  // A number as it may be written: its decimal form, after zeros, after a plus sign.
  predicate Writes(s: string, plus: string, zeros: string, n: nat) {
    s == plus + zeros + AuthApi.Decimal(n) && (plus == "" || plus == "+") && AllZeros(zeros)
  }

  lemma {:induction false} NatOfZeros(zeros: string, s: string)
    requires AllZeros(zeros) && AllDigits(s)
    ensures AllDigits(zeros + s) && NatOf(zeros + s) == NatOf(s)
    decreases |s| + |zeros|
  {
    if s != "" {
      NatOfZeros(zeros, s[..|s| - 1]);
      assert (zeros + s)[..|zeros + s| - 1] == zeros + s[..|s| - 1];
    } else if zeros != "" {
      NatOfZeros(zeros[..|zeros| - 1], "");
      assert zeros + "" == zeros && zeros[..|zeros| - 1] + "" == zeros[..|zeros| - 1];
    }
  }

  lemma {:induction false} DigitsAreDecimal(s: string) returns (zeros: string)
    requires AllDigits(s) && s != ""
    ensures AllZeros(zeros) && s == zeros + AuthApi.Decimal(NatOf(s))
    decreases |s|
  {
    var init, d := s[..|s| - 1], s[|s| - 1] as int - '0' as int;
    assert s == init + [s[|s| - 1]] && AuthApi.Digit(d) == s[|s| - 1];
    if init == "" {
      zeros := "";
      assert NatOf(s) == d;
    } else {
      zeros := DigitsAreDecimal(init);
      if NatOf(init) == 0 {
        assert AuthApi.Decimal(0) == ['0'];
        zeros := zeros + ['0'];
        assert s == zeros + [AuthApi.Digit(d)];
      } else {
        assert NatOf(s) / 10 == NatOf(init) && NatOf(s) % 10 == d;
        assert AuthApi.Decimal(NatOf(s)) == AuthApi.Decimal(NatOf(init)) + [AuthApi.Digit(d)];
      }
    }
  }

  lemma ParsesDigits(s: string, digits: string)
    requires digits != "" && AllDigits(digits) && (s == digits || s == "+" + digits)
    ensures ParseU16(s) == if NatOf(digits) <= 65535 then Some(NatOf(digits)) else None
  {
    hide NatOf;
    assert digits[0] != '+';
    assert (if s[0] == '+' then s[1..] else s) == digits;
  }

  lemma WrittenIsRead(s: string, plus: string, zeros: string, n: nat)
    requires Writes(s, plus, zeros, n) && n <= 65535
    ensures ParseU16(s) == Some(n)
  {
    DecimalParses(n);
    NatOfZeros(zeros, AuthApi.Decimal(n));
    Concatenated(plus, zeros, AuthApi.Decimal(n));
    hide NatOf, AllDigits, ParseU16, AuthApi.Decimal;
    var digits := zeros + AuthApi.Decimal(n);
    assert plus + digits == if plus == "" then digits else "+" + digits;
    ParsesDigits(s, digits);
  }

  lemma Concatenated(a: string, b: string, c: string)
    ensures a + (b + c) == a + b + c
  {}

  lemma ReadIsWritten(s: string, n: nat) returns (plus: string, zeros: string)
    requires ParseU16(s) == Some(n)
    ensures Writes(s, plus, zeros, n) && n <= 65535
  {
    hide AuthApi.Decimal, NatOf, AllDigits, AllZeros;
    plus := if s[0] == '+' then "+" else "";
    var digits := if s[0] == '+' then s[1..] else s;
    zeros := DigitsAreDecimal(digits);
    Concatenated(plus, zeros, AuthApi.Decimal(n));
  }

  /** A text is read as a port exactly when it writes a number up to 65535. */
  lemma PortIsReadIff(s: string, n: nat)
    ensures ParseU16(s) == Some(n) <==> n <= 65535 && exists plus, zeros :: Writes(s, plus, zeros, n)
  {
    hide ParseU16, Writes;
    if n <= 65535 {
      if plus, zeros :| Writes(s, plus, zeros, n) {
        WrittenIsRead(s, plus, zeros, n);
      }
    }
    if ParseU16(s) == Some(n) {
      var plus, zeros := ReadIsWritten(s, n);
      assert Writes(s, plus, zeros, n);
    }
  }

  // ---- what each field of a form becomes -----------------------------------------------

  // What is submitted for a field, and what of its type is stored for it in a
  // credential of the connector's kind.
  ghost predicate Submits(sub: Submission, f: Name, text: string) {
    f in sub && sub[f] == text && text != ""
  }

  ghost predicate Keeps(m: Manifest, existing: Option<Credential>, f: Name, v: Value) {
    && existing.Some? && existing.value.kind == m.kind && f in existing.value.fields && existing.value.fields[f] == v
    && match m.TypeOf(f)
       case PlainText => v.Text?
       case Port => v.Number? && v.n <= 65535
       case Bool(_) => v.Flag?
  }

  ghost predicate Reads(t: FieldType, text: string, v: Value) {
    match t
    case PlainText => v == Text(text)
    case Port => v.Number? && v.n <= 65535 && exists plus, zeros :: Writes(text, plus, zeros, v.n)
    case Bool(_) => (text == "true" && v == Flag(true)) || (text == "false" && v == Flag(false))
  }

  /** A submitted text is read as the field's type or is an error of that field; with none
      submitted what is stored well is kept, a flag that is not is its default, and any
      other field is missing. */
  lemma FieldBecomes(m: Manifest, existing: Option<Credential>, sub: Submission, f: Name)
    ensures var r := MergedField(m, existing, sub, f);
            if exists text :: Submits(sub, f, text) then
              if exists v :: Reads(m.TypeOf(f), sub[f], v) then r.Ok? && Reads(m.TypeOf(f), sub[f], r.value)
              else r == Err(BadField(f))
            else if exists v :: Keeps(m, existing, f, v) then r.Ok? && Keeps(m, existing, f, r.value)
            else if m.TypeOf(f).Bool? then r == Ok(Flag(m.TypeOf(f).byDefault))
            else r == Err(MissingField(f))
  {
    if text :| Submits(sub, f, text) {
      ReadsIff(f, m.TypeOf(f), text);
    } else {
      assert f in sub && sub[f] != "" ==> Submits(sub, f, sub[f]);
      var stored := CarriedOver(m, existing, f);
      assert stored.Some? ==> existing.value.fields[f] == stored.value;
      hide Parsed;
      assert forall v :: Keeps(m, existing, f, v) ==> stored == Some(v);
      if stored.Some? && WellStored(m.TypeOf(f), stored) {
        assert Keeps(m, existing, f, stored.value);
      }
    }
  }

  lemma ReadsIff(f: Name, t: FieldType, text: string)
    ensures var r := Parsed(f, t, text);
            if exists v :: Reads(t, text, v) then r.Ok? && Reads(t, text, r.value) else r == Err(BadField(f))
  {
    var r := Parsed(f, t, text);
    if t.Port? {
      forall n: nat ensures ParseU16(text) == Some(n) <==> Reads(t, text, Number(n)) { PortIsReadIff(text, n); }
    }
    assert r.Ok? ==> Reads(t, text, r.value);
    assert forall v :: Reads(t, text, v) ==> r == Ok(v);
  }

  // ---- the round trip --------------------------------------------------------------------

  // The form as the view prefills it: shown values as they are, withheld ones blank.
  function Resubmit(view: seq<RedactedField>): Submission {
    if view == [] then map[] else Resubmit(view[1..])[view[0].name := view[0].value.GetOr("")]
  }

  lemma {:induction false} ResubmitAt(view: seq<RedactedField>, i: nat)
    requires i < |view| && forall j, k | 0 <= j < k < |view| :: view[j].name != view[k].name
    ensures view[i].name in Resubmit(view) && Resubmit(view)[view[i].name] == view[i].value.GetOr("")
  {
    if i > 0 {
      ResubmitAt(view[1..], i - 1);
    }
  }

  // What is stored for a field is of the field's type; a flag may be missing.
  predicate WellStored(t: FieldType, stored: Option<Value>) {
    match t
    case PlainText => stored.Some? && stored.value.Text?
    case Port => stored.Some? && stored.value.Number? && stored.value.n <= 65535
    case Bool(_) => stored.Some? ==> stored.value.Flag?
  }

  // A stored value, or the default of a flag that is missing.
  function FilledIn(t: FieldType, stored: Option<Value>): Option<Value> {
    if stored.None? && t.Bool? then Some(Flag(t.byDefault)) else stored
  }

  // One field, shown and sent back.
  lemma FieldRoundTrip(name: Name, how: Shown, t: FieldType, stored: Option<Value>, sub: Submission)
    requires name in sub && sub[name] == ShowField(name, how, t, stored).value.GetOr("")
    ensures (Merged(name, t, stored, sub).Ok? && Some(Merged(name, t, stored, sub).value) == FilledIn(t, stored))
            <==> WellStored(t, stored)
  {
    if stored.Some? && stored.value.Number? {
      PortParses(stored.value.n);
      assert AuthApi.Decimal(stored.value.n) != "";
    }
  }

  lemma ShownByName(name: Name, how: Shown, t: FieldType, stored: Option<Value>)
    ensures ShowField(name, how, t, stored).name == name
  {}

  lemma Resubmitted(m: Manifest, c: Credential, i: nat)
    requires m.Valid() && i < |m.redaction|
    ensures var e := m.redaction[i];
            var sub := Resubmit(ShowAll(m, c, m.redaction));
            e.0 in sub && sub[e.0] == ShowField(e.0, e.1, m.TypeOf(e.0), Stored(c, e.0)).value.GetOr("")
  {
    var view := ShowAll(m, c, m.redaction);
    forall j | 0 <= j < |view| ensures view[j].name == m.redaction[j].0 {
      ShownByName(m.redaction[j].0, m.redaction[j].1, m.TypeOf(m.redaction[j].0), Stored(c, m.redaction[j].0));
    }
    hide ShowField;
    ResubmitAt(ShowAll(m, c, m.redaction), i);
  }

  // The same credential, with the flags it lacks filled in and nothing else in it.
  ghost predicate SameFilledIn(m: Manifest, c: Credential, d: Credential) {
    && d.kind == c.kind && (forall f :: f in d.fields <==> f in m.fields)
    && forall f <- m.fields :: Some(d.fields[f]) == FilledIn(m.TypeOf(f), Stored(c, f))
  }

  ghost predicate AllWellStored(m: Manifest, c: Credential) {
    forall f <- m.fields :: WellStored(m.TypeOf(f), Stored(c, f))
  }

  // What one field of the form merges to is what was stored, if it was stored well.
  ghost predicate ComesBack(m: Manifest, c: Credential, sub: Submission, f: Name) {
    var r := MergedField(m, Some(c), sub, f);
    r.Ok? && Some(r.value) == FilledIn(m.TypeOf(f), Stored(c, f))
  }

  lemma {:induction false} FieldComesBack(m: Manifest, c: Credential, f: Name)
    requires m.Valid() && c.kind == m.kind && f in m.fields
    ensures ComesBack(m, c, Resubmit(ShowAll(m, c, m.redaction)), f) <==> WellStored(m.TypeOf(f), Stored(c, f))
  {
    hide ShowField, Merged, WellStored, FilledIn;
    var i :| 0 <= i < |m.redaction| && m.redaction[i].0 == f;
    Resubmitted(m, c, i);
    FieldRoundTrip(f, m.redaction[i].1, m.TypeOf(f), Stored(c, f), Resubmit(ShowAll(m, c, m.redaction)));
  }

  /** Submitting the redacted view back unchanged, withheld fields blank, gives the
      same credential up to filled-in flag defaults -- exactly when every stored
      field is of its type. */
  lemma RoundTripIff(connectors: seq<Manifest>, m: Manifest, c: Credential)
    requires m.Valid() && c.kind == m.kind && ByKind(connectors, m.kind) == Some(m)
    ensures (exists d :: IsMerge(m, Some(c), Resubmit(Redact(connectors, c)), d) && SameFilledIn(m, c, d))
            <==> AllWellStored(m, c)
  {
    hide WellStored, FilledIn, MergedField;
    var sub := Resubmit(Redact(connectors, c));
    forall f | f in m.fields ensures ComesBack(m, c, sub, f) <==> WellStored(m.TypeOf(f), Stored(c, f)) {
      FieldComesBack(m, c, f);
    }
    if AllWellStored(m, c) {
      var d := Credential(m.kind, map f | f in m.fields :: MergedField(m, Some(c), sub, f).value);
      assert IsMerge(m, Some(c), sub, d) && SameFilledIn(m, c, d);
    }
    if d :| IsMerge(m, Some(c), sub, d) && SameFilledIn(m, c, d) {
      forall f | f in m.fields ensures WellStored(m.TypeOf(f), Stored(c, f)) {
        assert MergedField(m, Some(c), sub, f) == Ok(d.fields[f]);
      }
    }
  }

  // ---- a run of edits --------------------------------------------------------------------

  // The last value anybody submitted for a field.
  function LastSubmitted(subs: seq<Submission>, name: Name): Option<string>
    decreases |subs|
  {
    if subs == [] then None
    else
      var last := Get(subs[|subs| - 1], name);
      if last.Some? then last else LastSubmitted(subs[..|subs| - 1], name)
  }

  // A run of successful edits: each result merges its form over the one before.
  ghost predicate Edits(m: Manifest, before: Option<Credential>, subs: seq<Submission>, results: seq<Credential>) {
    && |results| == |subs|
    && forall i | 0 <= i < |subs| :: IsMerge(m, StoredBefore(before, results, i), subs[i], results[i])
  }

  function StoredBefore(before: Option<Credential>, results: seq<Credential>, i: nat): Option<Credential>
    requires i <= |results|
  {
    if i == 0 then before else Some(results[i - 1])
  }

  /** After any run of successful edits each field is its last non-empty submission,
      read as its type; one never submitted is what was stored, or a flag's default. */
  lemma {:induction false} FieldIsLastSubmitted(m: Manifest, before: Option<Credential>, subs: seq<Submission>,
      results: seq<Credential>, f: Name)
    requires Edits(m, before, subs, results) && subs != [] && f in m.fields
    ensures var after, last := results[|subs| - 1], LastSubmitted(subs, f);
            && after.kind == m.kind && f in after.fields
            && Ok(after.fields[f]) ==
                 if last.Some? then Parsed(f, m.TypeOf(f), last.value)
                 else Kept(f, m.TypeOf(f), CarriedOver(m, before, f))
    decreases |subs|
  {
    hide *;
    var n := |subs| - 1;
    LastEdit(m, before, subs, results, f);
    LastForm(subs, f);
    if n > 0 {
      FieldIsLastSubmitted(m, before, subs[..n], results[..n], f);
      LaterForm(m, before, results[n - 1], LastSubmitted(subs[..n], f), subs[n], f, results[n].fields[f]);
    }
  }

  lemma LastForm(subs: seq<Submission>, f: Name)
    requires subs != []
    ensures var last := Get(subs[|subs| - 1], f);
            LastSubmitted(subs, f) == if last.Some? then last else LastSubmitted(subs[..|subs| - 1], f)
    ensures |subs| == 1 ==> LastSubmitted(subs[..0], f).None?
  {}

  // The last edit of a run, and the run before it.
  lemma LastEdit(m: Manifest, before: Option<Credential>, subs: seq<Submission>, results: seq<Credential>, f: Name)
    requires Edits(m, before, subs, results) && subs != [] && f in m.fields
    ensures var n := |subs| - 1;
            && |results| == |subs| && results[n].kind == m.kind && f in results[n].fields
            && Edits(m, before, subs[..n], results[..n])
            && (n > 0 ==> MergedField(m, Some(results[n - 1]), subs[n], f) == Ok(results[n].fields[f]))
            && (n == 0 ==>
                  Ok(results[0].fields[f]) ==
                    if Get(subs[0], f).Some? then Parsed(f, m.TypeOf(f), Get(subs[0], f).value)
                    else Kept(f, m.TypeOf(f), CarriedOver(m, before, f)))
  {
    var n := |subs| - 1;
    hide Parsed, Kept;
    assert IsMerge(m, StoredBefore(before, results, n), subs[n], results[n]);
    forall i | 0 <= i < n ensures IsMerge(m, StoredBefore(before, results[..n], i), subs[..n][i], results[..n][i]) {
      assert IsMerge(m, StoredBefore(before, results, i), subs[i], results[i]);
    }
  }

  // One more form, over what the earlier ones left.
  lemma LaterForm(m: Manifest, before: Option<Credential>, c: Credential, last: Option<string>, sub: Submission,
      f: Name, v: Value)
    requires c.kind == m.kind && f in c.fields && MergedField(m, Some(c), sub, f) == Ok(v)
    requires Ok(c.fields[f]) ==
               if last.Some? then Parsed(f, m.TypeOf(f), last.value)
                   else Kept(f, m.TypeOf(f), CarriedOver(m, before, f))
    ensures Ok(v) ==
              if Get(sub, f).Some? then Parsed(f, m.TypeOf(f), Get(sub, f).value)
              else if last.Some? then Parsed(f, m.TypeOf(f), last.value)
              else Kept(f, m.TypeOf(f), CarriedOver(m, before, f))
  {
    hide ParseU16, ParseBool;
    if last.Some? {
      ParsedAgain(f, m.TypeOf(f), last.value, c.fields[f]);
    } else {
      KeptAgain(m, before, f, c.fields[f]);
    }
  }

  // What was kept, or parsed, is kept as it is.
  lemma KeptAgain(m: Manifest, before: Option<Credential>, f: Name, v: Value)
    requires Kept(f, m.TypeOf(f), CarriedOver(m, before, f)) == Ok(v)
    ensures Kept(f, m.TypeOf(f), Some(v)) == Ok(v)
  {}

  lemma ParsedAgain(f: Name, t: FieldType, text: string, v: Value)
    ensures Parsed(f, t, text) == Ok(v) ==> Kept(f, t, Some(v)) == Ok(v)
  {}

  // ---- the six connectors ----------------------------------------------------------------

  lemma {:induction false} FoundByBoth(connectors: seq<Manifest>, i: nat)
    requires i < |connectors|
    requires forall j, k | 0 <= j < k < |connectors| ::
               connectors[j].code != connectors[k].code && connectors[j].kind != connectors[k].kind
    ensures ByCode(connectors, connectors[i].code) == Some(connectors[i])
    ensures ByKind(connectors, connectors[i].kind) == Some(connectors[i])
  {
    if i > 0 {
      FoundByBoth(connectors[1..], i - 1);
    }
  }

  lemma EachOnce(m: Manifest)
    requires m in CONNECTORS
    ensures ByCode(CONNECTORS, m.code) == Some(m) && ByKind(CONNECTORS, m.kind) == Some(m)
  {
    var i :| 0 <= i < |CONNECTORS| && CONNECTORS[i] == m;
    FoundByBoth(CONNECTORS, i);
  }

  lemma AlpacaTableAgrees()
    ensures ALPACA.Valid()
  {
    ListedAt(ALPACA, [0, 1]);
  }

  lemma BybitTableAgrees()
    ensures BYBIT.Valid()
  {
    ListedAt(BYBIT, [0, 1]);
  }

  lemma CoinbaseTableAgrees()
    ensures COINBASE.Valid()
  {
    ListedAt(COINBASE, [0, 1]);
  }

  lemma OkxTableAgrees()
    ensures OKX.Valid()
  {
    ListedAt(OKX, [0, 1, 2]);
  }

  lemma BinanceShowsAll()
    ensures BINANCE.ShowsAll()
  {
    ListedAt(BINANCE, [4, 5, 0, 1, 2, 3]);
  }

  lemma BinanceShowsOnly()
    ensures BINANCE.ShowsOnly()
  {
    AskedAt(BINANCE, [2, 3, 4, 5, 0, 1]);
  }

  lemma BinanceOnceEach()
    ensures BINANCE.AskedOnce() && BINANCE.ShownOnce()
  {}

  lemma BinanceTableAgrees()
    ensures BINANCE.Valid()
  {
    hide Manifest.AskedOnce, Manifest.ShownOnce, Manifest.ShowsAll, Manifest.ShowsOnly;
    BinanceOnceEach();
    BinanceShowsAll();
    BinanceShowsOnly();
  }

  lemma IbkrShowsAll()
    ensures IBKR.ShowsAll()
  {
    ListedAt(IBKR, [5, 0, 1, 2, 3, 4]);
  }

  lemma IbkrShowsOnly()
    ensures IBKR.ShowsOnly()
  {
    AskedAt(IBKR, [1, 2, 3, 4, 5, 0]);
  }

  lemma IbkrOnceEach()
    ensures IBKR.AskedOnce() && IBKR.ShownOnce()
  {}

  lemma IbkrTableAgrees()
    ensures IBKR.Valid()
  {
    hide Manifest.AskedOnce, Manifest.ShownOnce, Manifest.ShowsAll, Manifest.ShowsOnly;
    IbkrOnceEach();
    IbkrShowsAll();
    IbkrShowsOnly();
  }

  // Where in the form each field of the view is.
  lemma AskedAt(m: Manifest, place: seq<nat>)
    requires |place| == |m.redaction|
    requires forall i | 0 <= i < |place| :: place[i] < |m.fields| && m.fields[place[i]] == m.redaction[i].0
    ensures m.ShowsOnly()
  {}

  // Where in the view each field of the form is.
  lemma ListedAt(m: Manifest, place: seq<nat>)
    requires |place| == |m.fields|
    requires forall i | 0 <= i < |place| :: place[i] < |m.redaction| && m.redaction[place[i]].0 == m.fields[i]
    ensures m.ShowsAll()
  {}

  /** So for each connector there is, by name: a stored credential of its kind comes
      back from its own redacted view the same, exactly when it is well stored. */
  lemma EveryConnectorRoundTrips(m: Manifest, c: Credential)
    requires m in CONNECTORS && c.kind == m.kind
    ensures ByCode(CONNECTORS, m.code) == Some(m)
    ensures (exists d :: IsMerge(m, Some(c), Resubmit(Redact(CONNECTORS, c)), d) && SameFilledIn(m, c, d))
            <==> AllWellStored(m, c)
  {
    hide *;
    EachOnce(m);
    EachValid(m);
    RoundTripIff(CONNECTORS, m, c);
  }

  // What a table asks for, of which type, and what of it is shown.
  ghost predicate Asks(m: Manifest, asked: seq<Name>) {
    && (forall f :: f in m.fields <==> f in asked)
    && (forall f :: m.TypeOf(f) == if f in asked && f == PortNumber then Port
                                   else if f in asked && f == Ssl then Bool(true) else PlainText)
    && (forall e <- m.redaction :: e.1 ==
          if e.0 in [Host, PortNumber, SenderCompId, TargetCompId, Ssl] then Clear
          else if e.0 == Key then Tail else Hidden)
  }

  lemma AlpacaAsks()
    ensures Asks(ALPACA, [Key, Secret])
  {}

  lemma BinanceAsks()
    ensures Asks(BINANCE, [ApiKey, PrivateKey, Host, PortNumber, SenderCompId, TargetCompId])
  {}

  lemma BybitAsks()
    ensures Asks(BYBIT, [ApiKey, ApiSecret])
  {}

  lemma CoinbaseAsks()
    ensures Asks(COINBASE, [ApiKey, PrivateKey])
  {}

  lemma OkxAsks()
    ensures Asks(OKX, [ApiKey, ApiSecret, Passphrase])
  {}

  lemma IbkrAsks()
    ensures Asks(IBKR, [Password, Host, PortNumber, SenderCompId, TargetCompId, Ssl])
  {}

  /** What each of the six connectors asks for and shows: its key, secret, passphrase or
      password is never shown, Alpaca's key but for its tail; the rest is in the clear. */
  lemma WhatIsAskedAndShown(m: Manifest)
    requires m in CONNECTORS
    ensures match m.code
            case ALPACA_CODE => m.kind == Alpaca && Asks(m, [Key, Secret])
            case BINANCE_CODE =>
              m.kind == BinanceFix && Asks(m, [ApiKey, PrivateKey, Host, PortNumber, SenderCompId, TargetCompId])
            case BYBIT_CODE => m.kind == Bybit && Asks(m, [ApiKey, ApiSecret])
            case COINBASE_CODE => m.kind == Coinbase && Asks(m, [ApiKey, PrivateKey])
            case OKX_CODE => m.kind == Okx && Asks(m, [ApiKey, ApiSecret, Passphrase])
            case IBKR_CODE =>
              m.kind == IbkrFix && Asks(m, [Password, Host, PortNumber, SenderCompId, TargetCompId, Ssl])
            case OtherCode(_) => false
  {
    hide Asks;
    AlpacaAsks();
    BinanceAsks();
    BybitAsks();
    CoinbaseAsks();
    OkxAsks();
    IbkrAsks();
  }

  /** So two credentials of one of the six kinds that agree on host, port, comp ids and
      flag, and on the last four characters of a key longer than that, look alike. */
  lemma SecretsDoNotShow(c: Credential, d: Credential)
    requires c.kind == d.kind
    requires forall f <- [Host, PortNumber, SenderCompId, TargetCompId, Ssl] :: Stored(c, f) == Stored(d, f)
    requires Tail4(KeyText(c)) == Tail4(KeyText(d))
    ensures Redact(CONNECTORS, c) == Redact(CONNECTORS, d)
  {
    if m :| m in CONNECTORS && ByKind(CONNECTORS, c.kind) == Some(m) {
      WhatIsAskedAndShown(m);
      forall e | e in m.redaction
        ensures match e.1
                case Clear => Stored(c, e.0) == Stored(d, e.0)
                case Hidden => true
                case Tail => ShowField(e.0, Tail, PlainText, Stored(c, e.0)).hint
                             == ShowField(e.0, Tail, PlainText, Stored(d, e.0)).hint
      {
        assert e.1 == Clear ==> e.0 in [Host, PortNumber, SenderCompId, TargetCompId, Ssl];
      }
    } else {
      FoundIsListed(CONNECTORS, c.kind);
    }
    ViewTellsNoMore(CONNECTORS, c, d);
  }

  function KeyText(c: Credential): string {
    if Stored(c, Key).Some? then TextOf(Stored(c, Key).value) else ""
  }

  lemma {:induction false} FoundIsListed(connectors: seq<Manifest>, kind: Kind)
    ensures ByKind(connectors, kind).Some? ==>
              ByKind(connectors, kind).value in connectors && ByKind(connectors, kind).value.kind == kind
    ensures ByKind(connectors, kind).None? ==> forall m <- connectors :: m.kind != kind
  {
    if connectors != [] {
      FoundIsListed(connectors[1..], kind);
    }
  }

  lemma EachValid(m: Manifest)
    requires m in CONNECTORS
    ensures m.Valid()
  {
    AlpacaTableAgrees();
    BybitTableAgrees();
    CoinbaseTableAgrees();
    OkxTableAgrees();
    BinanceTableAgrees();
    IbkrTableAgrees();
  }
}
