/** Signed, tenant-bound callback tokens of at most 64 bytes, and what decoding gives back. */
module Callbacks {
  import opened Basics
  import opened Encodings

  const MAX_CALLBACK_BYTES := 64
  const MAX_CALLBACK_PAGE := 46655

  datatype Action =
    | Home | Catalog | Category | Service | Hours | Privacy | Human | Cancel | Book | BookService | BookDate | BookSlot
    | BookConfirm | FlowCancel | MyBooking | AppointmentCancel | AppointmentCancelConfirm | Reschedule | Qualify
    | ConsentAccept | ConsentDecline | QualifyEdit | QualifySubmit

  type Uuid = b: seq<Byte> | |b| == 16 witness seq(16, i => 0)

  type Digest = b: seq<Byte> | |b| == 8 witness seq(8, i => 0)

  datatype Token = Token(action: Action, entity: Option<Uuid>, page: Option<int>)

  datatype EncodeError = PageRange | TooLong

  datatype TokenError =
    | BadToken | BadStructure | BadVersion | BadSignature | BadAction | BadNumber | Expired | BadPage | BadEntity
    | EntityRequired | EntityNotAllowed | PageNotAllowed

  /** The keyed digest stands for the first eight bytes of the HMAC under the codec's key. */
  datatype Codec = Codec(version: int, expirySeconds: nat, mac: string -> Digest)

  function Code(a: Action): string {
    match a
    case Home => "h" case Catalog => "ca" case Category => "ct" case Service => "sv" case Hours => "hr"
    case Privacy => "pr" case Human => "hu" case Cancel => "cx" case Book => "bk" case BookService => "bs"
    case BookDate => "bd" case BookSlot => "bt" case BookConfirm => "bc" case FlowCancel => "fc" case MyBooking => "mb"
    case AppointmentCancel => "ac" case AppointmentCancelConfirm => "ax" case Reschedule => "rs" case Qualify => "qf"
    case ConsentAccept => "qa" case ConsentDecline => "qd" case QualifyEdit => "qe" case QualifySubmit => "qs"
  }

  const ACTIONS: seq<Action> := [
    Home, Catalog, Category, Service, Hours, Privacy, Human, Cancel, Book, BookService, BookDate, BookSlot,
    BookConfirm, FlowCancel, MyBooking, AppointmentCancel, AppointmentCancelConfirm, Reschedule, Qualify,
    ConsentAccept, ConsentDecline, QualifyEdit, QualifySubmit]

  /** The codes on the wire, action by action: tokens outlive the process that issued them. */
  const WIRE_CODES: seq<string> := [
    "h", "ca", "ct", "sv", "hr", "pr", "hu", "cx", "bk", "bs", "bd", "bt",
    "bc", "fc", "mb", "ac", "ax", "rs", "qf", "qa", "qd", "qe", "qs"]

  lemma WireCodes(i: nat)
    requires i < |ACTIONS|
    ensures |WIRE_CODES| == |ACTIONS| && Code(ACTIONS[i]) == WIRE_CODES[i]
  {
    assert |ACTIONS| == 23;
  }

  function Lookup(code: string, actions: seq<Action>): Option<Action> {
    if actions == [] then None
    else if Code(actions[0]) == code then Some(actions[0])
    else Lookup(code, actions[1..])
  }

  predicate NeedsEntity(a: Action) {
    a in {Category, Service, BookService, BookDate, BookSlot, BookConfirm, AppointmentCancel, AppointmentCancelConfirm,
          Reschedule, ConsentAccept, ConsentDecline, QualifyEdit, QualifySubmit}
  }

  predicate IsPaged(a: Action) { a in {Catalog, Category, BookDate, BookSlot, QualifyEdit} }

  // --- Encoding ---------------------------------------------------------------------------

  predicate InRange(page: Option<int>) { page.Some? ==> 0 <= page.value <= MAX_CALLBACK_PAGE }

  function EntityText(entity: Option<Uuid>, page: Option<int>): string
    requires InRange(page)
  {
    var text := match entity case Some(id) => Unpadded(id) case None => "-";
    match page case Some(n) => text + ['~'] + Base36(n) case None => text
  }

  function Body(c: Codec, action: Action, entity: Option<Uuid>, page: Option<int>, expires: nat): string
    requires InRange(page)
  {
    Decimal(c.version) + ['.'] + Code(action) + ['.'] + EntityText(entity, page) + ['.'] + Base36(expires)
  }

  function Signature(c: Codec, tenant: string, body: string): string {
    Unpadded(c.mac(tenant + [':'] + body))
  }

  function Encode(c: Codec, tenant: string, action: Action, entity: Option<Uuid>, page: Option<int>, now: nat)
    : Result<string, EncodeError>
  {
    if !InRange(page) then Err(PageRange)
    else
      var body := Body(c, action, entity, page, now + c.expirySeconds);
      var token := body + ['.'] + Signature(c, tenant, body);
      if |token| > MAX_CALLBACK_BYTES then Err(TooLong) else Ok(token)
  }

  // --- Decoding ---------------------------------------------------------------------------

  function DecodeUuid(text: string): Option<Uuid> {
    match Decode64(text + "==")
    case Some(b) => if |b| == 16 then Some(b) else None
    case None => None
  }

  /** The page after the tilde, the entity before it, and the checks of the action's shape. */
  function DecodeShape(action: Action, text: string): Result<Token, TokenError> {
    var parted := Partition(text, '~');
    var page := if parted.found then ParseBase36(parted.tail) else None;
    if parted.found && page.None? then Err(BadNumber)
    else if !InRange(page) then Err(BadPage)
    else if parted.head != "-" && DecodeUuid(parted.head).None? then Err(BadEntity)
    else
      var entity := if parted.head == "-" then None else DecodeUuid(parted.head);
      if NeedsEntity(action) && entity.None? then Err(EntityRequired)
      else if !NeedsEntity(action) && entity.Some? then Err(EntityNotAllowed)
      else if !IsPaged(action) && page.Some? then Err(PageNotAllowed)
      else Ok(Token(action, entity, page))
  }

  function Decode(c: Codec, tenant: string, value: string, now: int): Result<Token, TokenError> {
    if !IsAscii(value) || |value| > MAX_CALLBACK_BYTES then Err(BadToken)
    else
      var parts := Split(value, '.');
      if |parts| != 5 then Err(BadStructure)
      else if parts[0] != Decimal(c.version) then Err(BadVersion)
      else
        var body := parts[0] + ['.'] + parts[1] + ['.'] + parts[2] + ['.'] + parts[3];
        if parts[4] != Signature(c, tenant, body) then Err(BadSignature)
        else
          match Lookup(parts[1], ACTIONS)
          case None => Err(BadAction)
          case Some(action) =>
            match ParseBase36(parts[3])
            case None => Err(BadNumber)
            case Some(expires) => if expires <= now then Err(Expired) else DecodeShape(action, parts[2])
  }

  // --- The pieces of a token --------------------------------------------------------------

  /** Letters, digits and the few marks a token's fields are made of: never a dot, always ASCII. */
  predicate IsField(s: string) {
    forall i :: 0 <= i < |s| ==> s[i] != '.' && s[i] as int < 128
  }

  lemma CodesDiffer(a: Action, b: Action)
    requires Code(a) == Code(b)
    ensures a == b
  {
    var s, t := Code(a), Code(b);
    assert |s| == |t| && s[0] == t[0] && (|s| == 2 ==> s[1] == t[1]);
  }

  lemma {:induction false} LookupFinds(a: Action, actions: seq<Action>)
    requires a in actions
    ensures Lookup(Code(a), actions) == Some(a)
  {
    hide Code;
    if Code(actions[0]) == Code(a) {
      CodesDiffer(actions[0], a);
    } else {
      LookupFinds(a, actions[1..]);
    }
  }

  lemma EveryActionListed(a: Action)
    ensures a in ACTIONS
  {
    var i := match a
      case Home => 0 case Catalog => 1 case Category => 2 case Service => 3 case Hours => 4 case Privacy => 5
      case Human => 6 case Cancel => 7 case Book => 8 case BookService => 9 case BookDate => 10 case BookSlot => 11
      case BookConfirm => 12 case FlowCancel => 13 case MyBooking => 14 case AppointmentCancel => 15
      case AppointmentCancelConfirm => 16 case Reschedule => 17 case Qualify => 18 case ConsentAccept => 19
      case ConsentDecline => 20 case QualifyEdit => 21 case QualifySubmit => 22;
    assert ACTIONS[i] == a;
  }

  lemma CodeField(a: Action)
    ensures 1 <= |Code(a)| <= 2 && IsField(Code(a))
  {
    var s := Code(a);
    assert 1 <= |s| <= 2 && 'a' <= s[0] <= 'z' && (|s| == 2 ==> 'a' <= s[1] <= 'z');
    hide Code;
    forall i | 0 <= i < |s| ensures 'a' <= s[i] <= 'z' {
      if i != 0 {
        assert i == 1;
      }
    }
  }

  /** Every action is found under its own code, which is a letter or two. */
  lemma CodeShape(a: Action)
    ensures Lookup(Code(a), ACTIONS) == Some(a)
    ensures 1 <= |Code(a)| <= 2 && IsField(Code(a))
  {
    hide Code, Lookup, IsField;
    EveryActionListed(a);
    LookupFinds(a, ACTIONS);
    CodeField(a);
  }

  lemma NumeralField(v: nat, base: Base)
    ensures IsField(Numeral(v, base)) && '~' !in Numeral(v, base)
  {
    NumeralDigits(v, base);
    var s := Numeral(v, base);
    assert forall i :: 0 <= i < |s| ==> IsDigit(s[i]);
  }

  lemma DecimalField(v: int)
    ensures IsField(Decimal(v))
  {
    NumeralField(if v < 0 then -v else v, 10);
  }

  lemma UnpaddedField(b: seq<Byte>)
    ensures IsField(Unpadded(b)) && '~' !in Unpadded(b)
  {
    UnpaddedShape(b);
    var s := Unpadded(b);
    assert forall i :: 0 <= i < |s| ==> IsChar64(s[i]);
  }

  lemma Joined(a: string, mark: char, b: string)
    requires IsField(a) && IsField(b) && mark != '.' && mark as int < 128
    ensures IsField(a + [mark] + b)
  {
  }

  lemma EntityField(entity: Option<Uuid>, page: Option<int>)
    requires InRange(page)
    ensures IsField(EntityText(entity, page))
  {
    if entity.Some? {
      UnpaddedField(entity.value);
    }
    if page.Some? {
      NumeralField(page.value, 36);
      Joined(EntityText(entity, None), '~', Base36(page.value));
    }
  }

  lemma FieldAscii(a: string, b: string)
    requires IsField(a) && IsAscii(b)
    ensures IsAscii(a) && '.' !in a && IsAscii(a + ['.'] + b)
  {
  }

  /** Joining with dots from the left or from the right is the same. */
  lemma Dotted(v: string, a: string, e: string, x: string, s: string)
    ensures v + ['.'] + a + ['.'] + e + ['.'] + x + ['.'] + s == v + ['.'] + (a + ['.'] + (e + ['.'] + (x + ['.'] + s)))
  {
    var xs := x + ['.'] + s;
    assert v + ['.'] + a + ['.'] + e + ['.'] + x + ['.'] + s == v + ['.'] + a + ['.'] + e + ['.'] + xs;
    var es := e + ['.'] + xs;
    assert v + ['.'] + a + ['.'] + e + ['.'] + xs == v + ['.'] + a + ['.'] + es;
    assert v + ['.'] + a + ['.'] + es == v + ['.'] + (a + ['.'] + es);
  }

  /** A token splits back into the five fields it was joined from. */
  lemma SplitsBack(v: string, a: string, e: string, x: string, s: string)
    requires IsField(v) && IsField(a) && IsField(e) && IsField(x) && IsField(s)
    ensures var token := v + ['.'] + a + ['.'] + e + ['.'] + x + ['.'] + s;
            IsAscii(token) && Split(token, '.') == [v, a, e, x, s]
  {
    assert IsAscii(s) && '.' !in s;
    hide Split, IsField, IsAscii;
    Dotted(v, a, e, x, s);
    var xs := x + ['.'] + s;
    var es := e + ['.'] + xs;
    var rest := a + ['.'] + es;
    FieldAscii(x, s);
    FieldAscii(e, xs);
    FieldAscii(a, es);
    FieldAscii(v, rest);
    SplitNone(s, '.');
    SplitFirst(x, s, '.');
    SplitFirst(e, xs, '.');
    SplitFirst(a, es, '.');
    SplitFirst(v, rest, '.');
  }

  // --- Round trip -------------------------------------------------------------------------

  /** Whether the entity and the page are those the action takes, in the order decoding looks at them. */
  function ShapeError(action: Action, entity: Option<Uuid>, page: Option<int>): Option<TokenError> {
    if NeedsEntity(action) && entity.None? then Some(EntityRequired)
    else if !NeedsEntity(action) && entity.Some? then Some(EntityNotAllowed)
    else if !IsPaged(action) && page.Some? then Some(PageNotAllowed)
    else None
  }

  lemma UuidBack(id: Uuid)
    ensures DecodeUuid(Unpadded(id)) == Some(id) && Unpadded(id) != "-"
  {
    Base64RoundTrip(id);
    UnpaddedShape(id);
  }

  lemma ShapeBack(action: Action, entity: Option<Uuid>, page: Option<int>)
    requires InRange(page)
    ensures DecodeShape(action, EntityText(entity, page)) ==
              match ShapeError(action, entity, page)
              case Some(error) => Err(error)
              case None => Ok(Token(action, entity, page))
  {
    hide Unpadded, Base36, ParseBase36, DecodeUuid, NeedsEntity, IsPaged, Partition;
    var head := EntityText(entity, None);
    if entity.Some? {
      UuidBack(entity.value);
      UnpaddedField(entity.value);
    }
    assert '~' !in head;
    PartitionFirst(head, if page.Some? then Base36(page.value) else "", '~');
    if page.Some? {
      ParsePrinted(page.value);
    }
  }

  /** What decoding does with a signed text whose fields are in order. */
  lemma DecodeFields(c: Codec, tenant: string, value: string, action: Action, entity: string, expires: nat,
                     body: string, now: int)
    requires |value| <= MAX_CALLBACK_BYTES && HasFields(c, tenant, value, action, entity, expires, body)
    ensures Decode(c, tenant, value, now) == if expires <= now then Err(Expired) else DecodeShape(action, entity)
  {
    CodeShape(action);
    ParsePrinted(expires);
    hide Code, Base36, Decimal, Signature, Split, Lookup, ParseBase36, DecodeShape, IsAscii;
  }

  /**
    Decoding what was encoded, under the same tenant: before the expiry it gives the action, entity
    and page back exactly when the entity and the page are those the action takes, and otherwise the
    error naming what is wrong; from the expiry on it is refused as expired.
  */
  lemma RoundTrip(c: Codec, tenant: string, action: Action, entity: Option<Uuid>, page: Option<int>, now: nat,
                  later: int)
    requires Encode(c, tenant, action, entity, page, now).Ok?
    ensures Decode(c, tenant, Encode(c, tenant, action, entity, page, now).value, later) ==
              if now + c.expirySeconds <= later then Err(Expired)
              else match ShapeError(action, entity, page)
                   case Some(error) => Err(error)
                   case None => Ok(Token(action, entity, page))
  {
    hide Body, EntityText, Signature, DecodeShape, ShapeError, Decode, HasFields;
    var expires := now + c.expirySeconds;
    var token := Encode(c, tenant, action, entity, page, now).value;
    Fields(c, tenant, action, entity, page, expires);
    var body := Body(c, action, entity, page, expires);
    DecodeFields(c, tenant, token, action, EntityText(entity, page), expires, body, later);
    ShapeBack(action, entity, page);
  }

  /** The five fields of a printed token. */
  ghost predicate HasFields(c: Codec, tenant: string, value: string, action: Action, entity: string, expires: nat,
                            body: string) {
    && IsAscii(value)
    && |Split(value, '.')| == 5
    && var parts := Split(value, '.');
       && parts[0] == Decimal(c.version) && parts[1] == Code(action)
       && parts[2] == entity && parts[3] == Base36(expires)
       && parts[0] + ['.'] + parts[1] + ['.'] + parts[2] + ['.'] + parts[3] == body
       && parts[4] == Signature(c, tenant, body)
  }

  lemma Fields(c: Codec, tenant: string, action: Action, entity: Option<Uuid>, page: Option<int>, expires: nat)
    requires InRange(page)
    ensures var body := Body(c, action, entity, page, expires);
            HasFields(c, tenant, body + ['.'] + Signature(c, tenant, body), action,
                      EntityText(entity, page), expires, body)
  {
    var body := Body(c, action, entity, page, expires);
    DecimalField(c.version);
    CodeShape(action);
    EntityField(entity, page);
    NumeralField(expires, 36);
    UnpaddedField(c.mac(tenant + [':'] + body));
    hide Decimal, Code, EntityText, Base36, Signature, IsField, Split, IsAscii;
    SplitsBack(Decimal(c.version), Code(action), EntityText(entity, page), Base36(expires), Signature(c, tenant, body));
  }

  /** The signature error names the signature check and nothing else. */
  lemma SignatureCheck(c: Codec, tenant: string, value: string, now: int)
    requires IsAscii(value) && |value| <= MAX_CALLBACK_BYTES
    requires |Split(value, '.')| == 5 && Split(value, '.')[0] == Decimal(c.version)
    ensures var parts := Split(value, '.');
            var body := parts[0] + ['.'] + parts[1] + ['.'] + parts[2] + ['.'] + parts[3];
            Decode(c, tenant, value, now) == Err(BadSignature) <==> parts[4] != Signature(c, tenant, body)
  {
    var parts := Split(value, '.');
    hide Split, Decimal, Signature, Lookup, ParseBase36, NeedsEntity, IsPaged, DecodeUuid, Partition;
    var action := Lookup(parts[1], ACTIONS);
    if action.Some? {
      assert DecodeShape(action.value, parts[2]) != Err(BadSignature);
    }
  }

  lemma SameSignature(c: Codec, tenant: string, other: string, body: string)
    ensures Signature(c, tenant, body) == Signature(c, other, body) <==>
            c.mac(tenant + [':'] + body) == c.mac(other + [':'] + body)
  {
    UnpaddedInjective(c.mac(tenant + [':'] + body), c.mac(other + [':'] + body));
    hide Unpadded;
  }

  /**
    A token is bound to its tenant: for another tenant it is refused for its signature exactly when
    the digests of the two tenants' texts differ.
  */
  lemma TenantBound(c: Codec, tenant: string, other: string, action: Action, entity: Option<Uuid>, page: Option<int>,
                    now: nat, later: int)
    requires Encode(c, tenant, action, entity, page, now).Ok?
    ensures InRange(page)
    ensures var body := Body(c, action, entity, page, now + c.expirySeconds);
            Decode(c, other, Encode(c, tenant, action, entity, page, now).value, later) == Err(BadSignature)
            <==> c.mac(tenant + [':'] + body) != c.mac(other + [':'] + body)
  {
    var expires := now + c.expirySeconds;
    var body := Body(c, action, entity, page, expires);
    var token := Encode(c, tenant, action, entity, page, now).value;
    SameSignature(c, tenant, other, body);
    hide Decimal, Code, EntityText, Base36, Signature, Split, Decode, Body, IsAscii, Lookup;
    Fields(c, tenant, action, entity, page, expires);
    SignatureCheck(c, other, token, later);
  }

  // --- Length -----------------------------------------------------------------------------

  lemma EntityLength(entity: Option<Uuid>, page: Option<int>)
    requires InRange(page)
    ensures |EntityText(entity, page)| <= 26
    ensures entity.Some? && page == Some(MAX_CALLBACK_PAGE) ==> |EntityText(entity, page)| == 26
  {
    if entity.Some? {
      UnpaddedShape(entity.value);
    }
    if page.Some? {
      assert Pow(36, 0) == 1;
      assert Pow(36, 1) == 36;
      assert Pow(36, 2) == 1296;
      assert Pow(36, 3) == 46656;
      NumeralLength(page.value, 36, 3);
      NumeralLength(page.value, 36, 2);
    }
  }

  /**
    With a version from 1 to 99 the limit of 64 bytes is never met: every page in range encodes as
    long as the expiry has at most nineteen base-36 digits.
  */
  lemma LimitNeverHit(c: Codec, tenant: string, action: Action, entity: Option<Uuid>, page: Option<int>, now: nat)
    requires 1 <= c.version <= 99 && now + c.expirySeconds < Pow(36, 19)
    ensures Encode(c, tenant, action, entity, page, now).Ok? <==> (page.Some? ==> 0 <= page.value < 36 * 36 * 36)
  {
    if InRange(page) {
      var expires := now + c.expirySeconds;
      TokenLength(c, tenant, action, entity, page, expires);
      NumeralLength(expires, 36, 19);
      hide Body, Signature, Base36, Pow;
    }
  }

  lemma TokenLength(c: Codec, tenant: string, action: Action, entity: Option<Uuid>, page: Option<int>, expires: nat)
    requires 1 <= c.version <= 99 && InRange(page)
    ensures var body := Body(c, action, entity, page, expires);
            |body + ['.'] + Signature(c, tenant, body)| <= 45 + |Base36(expires)|
  {
    var body := Body(c, action, entity, page, expires);
    CodeShape(action);
    EntityLength(entity, page);
    UnpaddedShape(c.mac(tenant + [':'] + body));
    assert Pow(10, 0) == 1;
    assert Pow(10, 1) == 10;
    assert Pow(10, 2) == 100;
    NumeralLength(c.version, 10, 2);
    hide Code, EntityText, Base36, Unpadded, Numeral;
  }

  lemma DecodedShape(c: Codec, tenant: string, value: string, now: int)
    requires Decode(c, tenant, value, now).Ok?
    ensures var token := Decode(c, tenant, value, now).value;
            && ShapeError(token.action, token.entity, token.page) == None
            && InRange(token.page)
  {
    hide Split, Decimal, Signature, Lookup, ParseBase36, NeedsEntity, IsPaged, DecodeUuid, Partition;
  }

  lemma EntityActions(a: Action)
    ensures !NeedsEntity(a) <==>
              a in {Home, Catalog, Hours, Privacy, Human, Cancel, Book, FlowCancel, MyBooking, Qualify}
  {
    match a
    case Home => case Catalog => case Category => case Service => case Hours => case Privacy => case Human =>
    case Cancel => case Book => case BookService => case BookDate => case BookSlot => case BookConfirm =>
    case FlowCancel => case MyBooking => case AppointmentCancel => case AppointmentCancelConfirm =>
    case Reschedule => case Qualify => case ConsentAccept => case ConsentDecline => case QualifyEdit =>
    case QualifySubmit =>
  }

  lemma DecodedSignature(c: Codec, tenant: string, value: string, now: int)
    requires Decode(c, tenant, value, now).Ok?
    ensures var parts := Split(value, '.');
            && |value| <= 64 && |parts| == 5
            && parts[4] ==
               Unpadded(c.mac(tenant + [':'] + parts[0] + ['.'] + parts[1] + ['.'] + parts[2] + ['.'] + parts[3]))
            && ParseBase36(parts[3]).Some? && now < ParseBase36(parts[3]).value
  {
    hide Split, Decimal, Unpadded, Lookup, ParseBase36, DecodeShape;
    var parts := Split(value, '.');
    assert tenant + [':'] + (parts[0] + ['.'] + parts[1] + ['.'] + parts[2] + ['.'] + parts[3]) ==
           tenant + [':'] + parts[0] + ['.'] + parts[1] + ['.'] + parts[2] + ['.'] + parts[3];
  }

  /**
    Which tokens exist: an accepted one names an entity exactly for the actions that are about one, has a
    page only for lists, dates and fields to edit, is signed for its tenant and has not expired.
  */
  lemma AcceptedShape(c: Codec, tenant: string, value: string, now: int)
    requires Decode(c, tenant, value, now).Ok?
    ensures var token := Decode(c, tenant, value, now).value;
            && (token.entity.None? <==>
                  token.action in {Home, Catalog, Hours, Privacy, Human, Cancel, Book, FlowCancel, MyBooking, Qualify})
            && (token.page.Some? ==>
                  token.action in {Catalog, Category, BookDate, BookSlot, QualifyEdit} && 0 <= token.page.value < 46656)
    ensures var parts := Split(value, '.');
            && |value| <= 64 && |parts| == 5
            && parts[4] ==
               Unpadded(c.mac(tenant + [':'] + parts[0] + ['.'] + parts[1] + ['.'] + parts[2] + ['.'] + parts[3]))
            && ParseBase36(parts[3]).Some? && now < ParseBase36(parts[3]).value
  {
    var token := Decode(c, tenant, value, now).value;
    DecodedShape(c, tenant, value, now);
    EntityActions(token.action);
    DecodedSignature(c, tenant, value, now);
    hide Decode, NeedsEntity, Split, Unpadded, ParseBase36;
  }

  /**
    Whatever text is accepted, even one the codec did not print itself, the token read from it can be
    issued again, and the new text decodes to the same token until it expires.
  */
  lemma AcceptedCanBeReissued(c: Codec, tenant: string, value: string, now: nat, later: int)
    requires 1 <= c.version <= 99 && now + c.expirySeconds < Pow(36, 19)
    requires Decode(c, tenant, value, now).Ok? && later < now + c.expirySeconds
    ensures var token := Decode(c, tenant, value, now).value;
            var again := Encode(c, tenant, token.action, token.entity, token.page, now);
            again.Ok? && Decode(c, tenant, again.value, later) == Ok(token)
  {
    var token := Decode(c, tenant, value, now).value;
    DecodedShape(c, tenant, value, now);
    hide Decode, Encode, ShapeError;
    LimitNeverHit(c, tenant, token.action, token.entity, token.page, now);
    RoundTrip(c, tenant, token.action, token.entity, token.page, now, later);
  }
}
