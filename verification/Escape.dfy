/** The text forms nested inside one cell: percent-escaping, lot references, tax keys. */
module Escape {
  import opened Basics
  import opened Text
  import opened Ledger

  datatype StoreError =
    | WriteVerifyMismatch | Unreachable | TabMissing | NonDenseSeq | UnknownKind | MissingField | BadReversal

  // --- UTF-8: section 4 of RFC 3629. ---

  predicate Within(s: string, i: nat, lo: int, hi: int) {
    i < |s| && lo <= s[i] as int <= hi
  }

  /** Length of the well-formed UTF-8 sequence `s` starts with, or 0. */
  function Utf8Lead(s: string): (n: nat)
    requires s != ""
    ensures n <= |s|
  {
    var b := s[0] as int;
    if b <= 0x7F then 1
    else if 0xC2 <= b <= 0xDF then (if Within(s, 1, 0x80, 0xBF) then 2 else 0)
    else if 0xE0 <= b <= 0xEF then
      (var lo, hi := if b == 0xE0 then 0xA0 else 0x80, if b == 0xED then 0x9F else 0xBF;
       if Within(s, 1, lo, hi) && Within(s, 2, 0x80, 0xBF) then 3 else 0)
    else if 0xF0 <= b <= 0xF4 then
      (var lo, hi := if b == 0xF0 then 0x90 else 0x80, if b == 0xF4 then 0x8F else 0xBF;
       if Within(s, 1, lo, hi) && Within(s, 2, 0x80, 0xBF) && Within(s, 3, 0x80, 0xBF) then 4 else 0)
    else 0
  }

  predicate ValidUtf8(s: string)
    decreases |s|
  {
    s == "" || (Utf8Lead(s) > 0 && ValidUtf8(s[Utf8Lead(s)..]))
  }

  // --- Percent-escaping of the reserved delimiters. ---

  predicate Reserved(c: char) {
    c == '%' || c == ';' || c == ':' || c == '~'
  }

  function HexUpper(d: nat): char
    requires d < 16
  {
    if d < 10 then DigitChar(d) else ('A' as int + d - 10) as char
  }

  function HexValue(c: char): (d: Option<nat>)
    ensures d.Some? ==> d.value < 16
  {
    if IsDigit(c) then Some(c as int - '0' as int)
    else if 'a' <= c <= 'f' then Some(c as int - 'a' as int + 10)
    else if 'A' <= c <= 'F' then Some(c as int - 'A' as int + 10)
    else None
  }

  function EscChar(c: char): string {
    if Reserved(c) then ['%', HexUpper(c as int / 16), HexUpper(c as int % 16)] else [c]
  }

  function Esc(s: string): string {
    if s == "" then "" else EscChar(s[0]) + Esc(s[1..])
  }

  /** The bytes an escaped string stands for; a `%` needs two hexadecimal digits after it. */
  function Unescaped(s: string): Option<string>
    decreases |s|
  {
    if s == "" then Some("")
    else if s[0] == '%' then
      if |s| <= 2 then None
      else match (HexValue(s[1]), HexValue(s[2]))
        case (Some(hi), Some(lo)) =>
          (match Unescaped(s[3..]) case None => None case Some(rest) => Some([(hi * 16 + lo) as char] + rest))
        case _ => None
    else match Unescaped(s[1..]) case None => None case Some(rest) => Some([s[0]] + rest)
  }

  function Unesc(s: string): Result<string, StoreError> {
    match Unescaped(s)
    case None => Failure(MissingField)
    case Some(out) => if ValidUtf8(out) then Success(out) else Failure(MissingField)
  }

  lemma {:induction false} UnescapedEsc(s: string)
    ensures Unescaped(Esc(s)) == Some(s)
  {
    if s != "" {
      UnescapedEsc(s[1..]);
      var e := Esc(s);
      if Reserved(s[0]) {
        assert e[3..] == Esc(s[1..]);
      } else {
        assert e[1..] == Esc(s[1..]);
      }
      assert [s[0]] + s[1..] == s;
    }
  }

  lemma {:induction false} EscAvoids(s: string, c: char)
    requires c == ';' || c == ':' || c == '~'
    ensures c !in Esc(s)
  {
    if s != "" { EscAvoids(s[1..], c); }
  }

  /** Escaping loses nothing, and its result carries no delimiter. */
  lemma {:induction false} EscRoundTrip(s: string)
    requires ValidUtf8(s)
    ensures Unesc(Esc(s)) == Success(s)
    ensures ';' !in Esc(s) && ':' !in Esc(s) && '~' !in Esc(s)
  {
    UnescapedEsc(s);
    EscAvoids(s, ';');
    EscAvoids(s, ':');
    EscAvoids(s, '~');
  }

  method EscapeText(s: string) returns (out: string)
    ensures out == Esc(s)
  {
    out := "";
    var i := 0;
    assert s[0..] == s;
    while i < |s|
      invariant 0 <= i <= |s|
      invariant out + Esc(s[i..]) == Esc(s)
    {
      assert s[i..][0] == s[i] && s[i..][1..] == s[i + 1..];
      assert out + (EscChar(s[i]) + Esc(s[i + 1..])) == (out + EscChar(s[i])) + Esc(s[i + 1..]);
      out := out + EscChar(s[i]);
      i := i + 1;
    }
    assert s[i..] == "";
  }

  function After(out: string, rest: Option<string>): Option<string> {
    match rest case None => None case Some(x) => Some(out + x)
  }

  method UnescapeText(s: string) returns (r: Result<string, StoreError>)
    ensures r == Unesc(s)
  {
    var out: string := "";
    var i := 0;
    assert s[0..] == s;
    AfterEnds("", Unescaped(s));
    while i < |s|
      invariant 0 <= i <= |s|
      invariant After(out, Unescaped(s[i..])) == Unescaped(s)
    {
      ghost var rest := s[i..];
      if s[i] == '%' {
        if i + 2 >= |s| { return Failure(MissingField); }
        assert rest[1] == s[i + 1] && rest[2] == s[i + 2] && rest[3..] == s[i + 3..];
        var hi := HexValue(s[i + 1]);
        if hi.None? { return Failure(MissingField); }
        var lo := HexValue(s[i + 2]);
        if lo.None? { return Failure(MissingField); }
        AfterStep(out, (hi.value * 16 + lo.value) as char, Unescaped(s[i + 3..]));
        out := out + [(hi.value * 16 + lo.value) as char];
        i := i + 3;
      } else {
        assert rest[1..] == s[i + 1..];
        AfterStep(out, s[i], Unescaped(s[i + 1..]));
        out := out + [s[i]];
        i := i + 1;
      }
    }
    assert s[i..] == "";
    AfterEnds(out, None);
    if !ValidUtf8(out) { return Failure(MissingField); }
    return Success(out);
  }

  lemma AfterEnds(out: string, rest: Option<string>)
    ensures After("", rest) == rest
    ensures After(out, Some("")) == Some(out)
  {
    if rest.Some? { assert "" + rest.value == rest.value; }
    assert out + "" == out;
  }

  lemma AfterStep(out: string, c: char, rest: Option<string>)
    ensures After(out, match rest case None => None case Some(x) => Some([c] + x)) == After(out + [c], rest)
  {
    if rest.Some? { assert out + ([c] + rest.value) == out + [c] + rest.value; }
  }

  /** A decoded list put after what is already decoded. */
  function Onto<T>(out: seq<T>, rest: Result<seq<T>, StoreError>): Result<seq<T>, StoreError> {
    match rest case Failure(e) => Failure(e) case Success(more) => Success(out + more)
  }

  lemma OntoEnds<T>(out: seq<T>, rest: Result<seq<T>, StoreError>)
    ensures Onto([], rest) == rest
    ensures Onto(out, Success([])) == Success(out)
  {
    if rest.Success? { assert [] + rest.value == rest.value; }
    assert out + [] == out;
  }

  lemma OntoStep<T>(out: seq<T>, x: T, rest: Result<seq<T>, StoreError>)
    ensures Onto(out + [x], rest) == Onto(out, Onto([x], rest))
  {
    if rest.Success? { assert out + ([x] + rest.value) == out + [x] + rest.value; }
  }

  // --- Integers in cells. ---

  function DecI64(s: string): Result<int, StoreError> {
    match ParseI64(Trim(s)) case None => Failure(MissingField) case Some(v) => Success(v)
  }

  lemma DecIntText(v: int)
    ensures DecI64(IntText(v)) == if FitsI64(v) then Success(v) else Failure(MissingField)
  {
    ParseIntText(v);
    var s := IntText(v);
    TrimKeeps(s);
  }

  lemma IntTextAvoids(v: int, c: char)
    requires Reserved(c)
    ensures c !in IntText(v)
  {
  }

  // --- Lists of encoded parts joined by `;`. ---

  function EncParts<T>(xs: seq<T>, enc: T -> string): (r: seq<string>)
    ensures |r| == |xs| && forall i :: 0 <= i < |xs| ==> r[i] == enc(xs[i])
  {
    if xs == [] then [] else [enc(xs[0])] + EncParts(xs[1..], enc)
  }

  function EncList<T>(xs: seq<T>, enc: T -> string): string {
    Join(EncParts(xs, enc), ';')
  }

  function DecParts<T>(parts: seq<string>, dec: string -> Result<T, StoreError>): Result<seq<T>, StoreError> {
    if parts == [] then Success([])
    else
      var x :- dec(parts[0]);
      var rest :- DecParts(parts[1..], dec);
      Success([x] + rest)
  }

  /** An empty cell is the empty list. */
  function DecList<T>(s: string, dec: string -> Result<T, StoreError>): Result<seq<T>, StoreError> {
    if s == "" then Success([]) else DecParts(SplitOn(s, ';'), dec)
  }

  lemma {:induction false} PartsRoundTrip<T>(xs: seq<T>, enc: T -> string, dec: string -> Result<T, StoreError>)
    requires forall i :: 0 <= i < |xs| ==> dec(enc(xs[i])) == Success(xs[i])
    ensures DecParts(EncParts(xs, enc), dec) == Success(xs)
  {
    if xs != [] {
      var rest := xs[1..];
      assert forall i :: 0 <= i < |rest| ==> rest[i] == xs[i + 1];
      PartsRoundTrip(rest, enc, dec);
      assert EncParts(xs, enc)[1..] == EncParts(rest, enc);
      assert [xs[0]] + rest == xs;
    }
  }

  lemma EncodedNotEmpty(parts: seq<string>, c: char)
    requires parts != [] && parts[0] != ""
    ensures Join(parts, c) != ""
  {
  }

  /** A list reads back as itself if each element does and its encoding is neither empty nor
      carries the delimiter. */
  lemma ListRoundTrip<T>(xs: seq<T>, enc: T -> string, dec: string -> Result<T, StoreError>)
    requires forall i :: 0 <= i < |xs| ==> dec(enc(xs[i])) == Success(xs[i]) && ';' !in enc(xs[i]) && enc(xs[i]) != ""
    ensures DecList(EncList(xs, enc), dec) == Success(xs)
  {
    if xs != [] {
      var parts := EncParts(xs, enc);
      PartsRoundTrip(xs, enc, dec);
      EncodedNotEmpty(parts, ';');
      SplitJoin(parts, ';');
    }
  }

  method DecodeList<T>(s: string, dec: string -> Result<T, StoreError>) returns (r: Result<seq<T>, StoreError>)
    ensures r == DecList(s, dec)
  {
    if s == "" { return Success([]); }
    var parts := SplitOn(s, ';');
    var out: seq<T> := [];
    var i := 0;
    assert parts[0..] == parts;
    OntoEnds([], DecParts(parts, dec));
    while i < |parts|
      invariant 0 <= i <= |parts|
      invariant Onto(out, DecParts(parts[i..], dec)) == DecParts(parts, dec)
    {
      assert parts[i..][0] == parts[i] && parts[i..][1..] == parts[i + 1..];
      var one := dec(parts[i]);
      if one.Failure? { return Failure(one.error); }
      OntoStep(out, one.value, DecParts(parts[i + 1..], dec));
      out := out + [one.value];
      i := i + 1;
    }
    assert parts[i..] == [];
    OntoEnds(out, Success([]));
    return Success(out);
  }

  // --- Lot references: `id:qty;id:qty`. ---

  function EncRef(r: LotRef): string {
    Esc(r.lotId) + ":" + IntText(r.qty)
  }

  function EncLotRefs(refs: seq<LotRef>): string {
    EncList(refs, EncRef)
  }

  function DecRef(part: string): Result<LotRef, StoreError> {
    match RSplitOnce(part, ':')
    case None => Failure(MissingField)
    case Some((lotId, qty)) =>
      var id :- Unesc(lotId);
      var q :- DecI64(qty);
      Success(LotRef(id, q))
  }

  function DecLotRefs(s: string): Result<seq<LotRef>, StoreError> {
    DecList(s, DecRef)
  }

  predicate GoodRef(r: LotRef) {
    ValidUtf8(r.lotId) && FitsI64(r.qty)
  }

  lemma RefRoundTrip(r: LotRef)
    requires GoodRef(r)
    ensures DecRef(EncRef(r)) == Success(r)
    ensures ';' !in EncRef(r) && EncRef(r) != ""
  {
    EscRoundTrip(r.lotId);
    IntTextAvoids(r.qty, ':');
    IntTextAvoids(r.qty, ';');
    assert EncRef(r) == Esc(r.lotId) + [':'] + IntText(r.qty);
    RSplitLast(Esc(r.lotId), IntText(r.qty), ':');
    DecIntText(r.qty);
  }

  /** Any list of lot references reads back as itself, delimiters in the ids included. */
  lemma {:induction false} LotRefsRoundTrip(refs: seq<LotRef>)
    requires forall i :: 0 <= i < |refs| ==> GoodRef(refs[i])
    ensures DecLotRefs(EncLotRefs(refs)) == Success(refs)
  {
    forall i | 0 <= i < |refs|
      ensures DecRef(EncRef(refs[i])) == Success(refs[i]) && ';' !in EncRef(refs[i]) && EncRef(refs[i]) != ""
    {
      RefRoundTrip(refs[i]);
    }
    ListRoundTrip(refs, EncRef, DecRef);
  }

  method DecodeLotRefs(s: string) returns (r: Result<seq<LotRef>, StoreError>)
    ensures r == DecLotRefs(s)
  {
    r := DecodeList(s, DecRef);
  }

  // --- Jurisdictions, years, quarters and accrual keys. ---

  datatype Jurisdiction = Federal | State(code: string)

  datatype Quarter = Q1 | Q2 | Q3 | Q4

  datatype AccrualKey = AccrualKey(saleId: string, lotId: string, jurisdiction: Jurisdiction, taxYear: int)

  function EncJurisdiction(j: Jurisdiction): string {
    match j case Federal => "Federal" case State(code) => "State:" + code
  }

  function DecJurisdiction(s: string): Result<Jurisdiction, StoreError> {
    if s == "Federal" then Success(Federal)
    else if "State:" <= s then Success(State(s[6..]))
    else Failure(MissingField)
  }

  lemma {:induction false} JurisdictionRoundTrip(j: Jurisdiction)
    ensures DecJurisdiction(EncJurisdiction(j)) == Success(j)
    ensures EncJurisdiction(j) != ""
  {
    if j.State? {
      var s := EncJurisdiction(j);
      assert s[6..] == j.code;
      assert s[0] == 'S';
    }
  }

  function DecTaxYear(s: string): Result<int, StoreError> {
    var v :- DecI64(s);
    Success(AsI32(v))
  }

  lemma TaxYearRoundTrip(y: int)
    requires FitsI32(y)
    ensures DecTaxYear(IntText(y)) == Success(y)
  {
    DecIntText(y);
  }

  function EncQuarter(q: Quarter): string {
    match q case Q1 => "Q1" case Q2 => "Q2" case Q3 => "Q3" case Q4 => "Q4"
  }

  function DecQuarter(s: string): Result<Quarter, StoreError> {
    if s == "Q1" then Success(Q1) else if s == "Q2" then Success(Q2)
    else if s == "Q3" then Success(Q3) else if s == "Q4" then Success(Q4)
    else Failure(MissingField)
  }

  lemma QuarterRoundTrip(q: Quarter)
    ensures DecQuarter(EncQuarter(q)) == Success(q)
  {
    assert EncQuarter(q)[0] == 'Q';
  }

  // --- Covered accruals: `sale~lot~jurisdiction~year;...`. ---

  function KeyFields(k: AccrualKey): seq<string> {
    [Esc(k.saleId), Esc(k.lotId), Esc(EncJurisdiction(k.jurisdiction)), IntText(k.taxYear)]
  }

  function EncKey(k: AccrualKey): string {
    Join(KeyFields(k), '~')
  }

  function EncCovers(keys: seq<AccrualKey>): string {
    EncList(keys, EncKey)
  }

  function DecKey(rec: string): Result<AccrualKey, StoreError> {
    var parts := SplitOn(rec, '~');
    if |parts| != 4 then Failure(MissingField)
    else
      var saleId :- Unesc(parts[0]);
      var lotId :- Unesc(parts[1]);
      var text :- Unesc(parts[2]);
      var jurisdiction :- DecJurisdiction(text);
      var year :- DecTaxYear(parts[3]);
      Success(AccrualKey(saleId, lotId, jurisdiction, year))
  }

  function DecCovers(s: string): Result<seq<AccrualKey>, StoreError> {
    DecList(s, DecKey)
  }

  predicate GoodKey(k: AccrualKey) {
    ValidUtf8(k.saleId) && ValidUtf8(k.lotId) && ValidUtf8(EncJurisdiction(k.jurisdiction)) && FitsI32(k.taxYear)
  }

  lemma {:induction false} KeyRoundTrip(k: AccrualKey)
    requires GoodKey(k)
    ensures DecKey(EncKey(k)) == Success(k)
    ensures ';' !in EncKey(k) && EncKey(k) != ""
  {
    var f := KeyFields(k);
    EscRoundTrip(k.saleId);
    EscRoundTrip(k.lotId);
    EscRoundTrip(EncJurisdiction(k.jurisdiction));
    IntTextAvoids(k.taxYear, '~');
    IntTextAvoids(k.taxYear, ';');
    SplitJoin(f, '~');
    JoinAvoids(f, '~', ';');
    JurisdictionRoundTrip(k.jurisdiction);
    TaxYearRoundTrip(k.taxYear);
  }

  /** Any list of covered accruals reads back as itself. */
  lemma {:induction false} CoversRoundTrip(keys: seq<AccrualKey>)
    requires forall i :: 0 <= i < |keys| ==> GoodKey(keys[i])
    ensures DecCovers(EncCovers(keys)) == Success(keys)
  {
    forall i | 0 <= i < |keys|
      ensures DecKey(EncKey(keys[i])) == Success(keys[i]) && ';' !in EncKey(keys[i]) && EncKey(keys[i]) != ""
    {
      KeyRoundTrip(keys[i]);
    }
    ListRoundTrip(keys, EncKey, DecKey);
  }

  method DecodeCovers(s: string) returns (r: Result<seq<AccrualKey>, StoreError>)
    ensures r == DecCovers(s)
  {
    r := DecodeList(s, DecKey);
  }
}
