/** A channel row read from the database: the holders made for a column list and their assignment to the fields. */
module ChannelScan {
  import opened Wrappers
  import opened DealPayload

  // The columns of the channels table, and any other selected name.
  datatype Column =
    | Id | CreatedAt | UpdatedAt | TgId | TgUsername | TgName | TgDescription
    | TgPicture | Commentary | IsListed | Tags | StatsUpdatedAt | Stats | Prices
    | Subscribers | PremiumSubscribers | MedianPostViews | AvgPostViews | Status | MainLanguage | RestrictedFrom
    | RestrictedTill | RestrictionReason | NotificationsOn | FirstPostDate | TotalPosts
    | Other(name: string)

  // What a JSON column may hold: text that is not JSON, or a document.
  datatype Text = Malformed | Document(j: Json)

  // The holders the driver fills; None is a NULL, and for bytes also an empty value.
  datatype Holder =
    | Bytes(text: Option<Text>)
    | NullBool(b: Option<bool>)
    | NullFloat64(r: Option<real>)
    | NullInt64(n: Option<int>)
    | NullString(s: Option<string>)
    | NullTime(t: Option<int>)
    | Uuid(id: nat)
    | UnknownType(v: Option<string>)

  // The value of a field, by its type; Chosen is a dynamically selected value.
  datatype Value =
    | IdValue(id: nat)
    | TimeValue(t: int)
    | IntValue(n: int)
    | StrValue(s: string)
    | BoolValue(b: bool)
    | FloatValue(r: real)
    | TagsValue(tags: Option<seq<string>>)
    | StatsValue(stats: Option<Doc>)
    | PricesValue(prices: Option<map<string, real>>)
    | Chosen(chosen: Option<Holder>)

  datatype AssignError = TooFewValues | UnexpectedType(c: Column) | BadJson(c: Column)

  // ---------- Decoding into a field that may hold something already ----------

  // A list replaces the old one, but a null element keeps what stood at its place.
  function DecodeTags(was: Option<seq<string>>, j: Json): Option<Option<seq<string>>> {
    match j
    case Null => Some(None)
    case Arr(items) =>
      if exists k | 0 <= k < |items| :: !items[k].Str? && !items[k].Null? then None
      else
        var before := if was.None? then [] else was.value;
        Some(Some(seq(|items|, k requires 0 <= k < |items| =>
          if items[k].Str? then items[k].s else if k < |before| then before[k] else "")))
    case _ => None
  }

  // An object is merged into the old one, key by key.
  function DecodeStats(was: Option<Doc>, j: Json): Option<Option<Doc>> {
    match j
    case Null => Some(None)
    case Obj(fields) => Some(Some((if was.None? then map[] else was.value) + fields))
    case _ => None
  }

  function DecodePrices(was: Option<map<string, real>>, j: Json): Option<Option<map<string, real>>> {
    match j
    case Null => Some(None)
    case Obj(fields) =>
      if exists k | k in fields :: !fields[k].Num? && !fields[k].Null? then None
      else
        var read := map k | k in fields :: if fields[k].Num? then fields[k].n else 0.0;
        Some(Some((if was.None? then map[] else was.value) + read))
    case _ => None
  }

  // ---------- The schema: what each column is, and what one value does to it ----------

  datatype FieldType =
    | IdType | TimeType | IntType | StrType | BoolType | FloatType
    | TagsType | StatsType | PricesType
    | NoField

  function TypeOf(c: Column): FieldType {
    match c
    case Id => IdType
    case CreatedAt | UpdatedAt | StatsUpdatedAt | RestrictedFrom | RestrictedTill | FirstPostDate => TimeType
    case TgId | Subscribers | PremiumSubscribers | MedianPostViews | AvgPostViews | Status | TotalPosts => IntType
    case TgUsername | TgName | TgDescription | TgPicture | Commentary | MainLanguage | RestrictionReason => StrType
    case IsListed => BoolType
    case NotificationsOn => FloatType
    case Tags => TagsType
    case Stats => StatsType
    case Prices => PricesType
    case Other(_) => NoField
  }

  predicate OfType(v: Value, t: FieldType) {
    match t
    case IdType => v.IdValue?
    case TimeType => v.TimeValue?
    case IntType => v.IntValue?
    case StrType => v.StrValue?
    case BoolType => v.BoolValue?
    case FloatType => v.FloatValue?
    case TagsType => v.TagsValue?
    case StatsType => v.StatsValue?
    case PricesType => v.PricesValue?
    case NoField => v.Chosen?
  }

  // The holder a field of this type is read through.
  predicate Fits(h: Holder, t: FieldType) {
    match t
    case IdType => h.Uuid?
    case TimeType => h.NullTime?
    case IntType => h.NullInt64?
    case StrType => h.NullString?
    case BoolType => h.NullBool?
    case FloatType => h.NullFloat64?
    case TagsType | StatsType | PricesType => h.Bytes?
    case NoField => true
  }

  predicate IsJson(t: FieldType) {
    t.TagsType? || t.StatsType? || t.PricesType?
  }

  // The field after a document was decoded into it; None when it cannot be.
  function Decoded(t: FieldType, was: Value, text: Text): Option<Value>
    requires IsJson(t) && OfType(was, t)
  {
    if text.Malformed? then None
    else if t.TagsType? then
      var r := DecodeTags(was.tags, text.j);
      if r.None? then None else Some(TagsValue(r.value))
    else if t.StatsType? then
      var r := DecodeStats(was.stats, text.j);
      if r.None? then None else Some(StatsValue(r.value))
    else
      var r := DecodePrices(was.prices, text.j);
      if r.None? then None else Some(PricesValue(r.value))
  }

  // A value that is not NULL, as a field value.
  function Present(h: Holder, t: FieldType): Option<Value>
    requires Fits(h, t) && !IsJson(t)
  {
    match t
    case IdType => Some(IdValue(h.id))
    case TimeType => if h.t.Some? then Some(TimeValue(h.t.value)) else None
    case IntType => if h.n.Some? then Some(IntValue(h.n.value)) else None
    case StrType => if h.s.Some? then Some(StrValue(h.s.value)) else None
    case BoolType => if h.b.Some? then Some(BoolValue(h.b.value)) else None
    case FloatType => if h.r.Some? then Some(FloatValue(h.r.value)) else None
    case NoField => Some(Chosen(Some(h)))
  }

  // One field after one scanned value.
  function Taken(c: Column, h: Holder, was: Value): (r: Result<Value, AssignError>)
    requires OfType(was, TypeOf(c))
    ensures r.Ok? ==> OfType(r.value, TypeOf(c))
  {
    var t := TypeOf(c);
    if !Fits(h, t) then Err(UnexpectedType(c))
    else if !IsJson(t) then
      var v := Present(h, t);
      Ok(if v.Some? then v.value else was)
    else if h.text.None? then Ok(was)
    else
      var v := Decoded(t, was, h.text.value);
      if v.None? then Err(BadJson(c)) else Ok(v.value)
  }

  // ---------- Making the holders ----------

  // The holder made for a column; every one starts out as NULL.
  function NewHolder(c: Column): Holder {
    match c
    case Tags | Stats | Prices => Bytes(None)
    case IsListed => NullBool(None)
    case NotificationsOn => NullFloat64(None)
    case TgId | Subscribers | PremiumSubscribers | MedianPostViews | AvgPostViews | Status | TotalPosts => NullInt64(None)
    case TgUsername | TgName | TgDescription | TgPicture | Commentary | MainLanguage | RestrictionReason => NullString(None)
    case CreatedAt | UpdatedAt | StatsUpdatedAt | RestrictedFrom | RestrictedTill | FirstPostDate => NullTime(None)
    case Id => Uuid(0)
    case Other(_) => UnknownType(None)
  }

  method ScanValues(columns: seq<Column>) returns (values: array<Holder>)
    ensures fresh(values) && values.Length == |columns|
    ensures forall i | 0 <= i < |columns| :: values[i] == NewHolder(columns[i])
  {
    values := new Holder[|columns|](_ => UnknownType(None));
    for i := 0 to |columns|
      invariant forall k | 0 <= k < i :: values[k] == NewHolder(columns[k])
    {
      values[i] := NewHolder(columns[i]);
    }
  }

  // The driver fills a holder; it never changes what kind of holder it is.
  predicate SameHolder(a: Holder, b: Holder) {
    match a
    case Bytes(_) => b.Bytes?
    case NullBool(_) => b.NullBool?
    case NullFloat64(_) => b.NullFloat64?
    case NullInt64(_) => b.NullInt64?
    case NullString(_) => b.NullString?
    case NullTime(_) => b.NullTime?
    case Uuid(_) => b.Uuid?
    case UnknownType(_) => b.UnknownType?
  }

  // ---------- The channel ----------

  class Channel {
    var id: nat
    var createdAt: int
    var updatedAt: int
    var tgId: int
    var tgUsername: string
    var tgName: string
    var tgDescription: string
    var tgPicture: string
    var commentary: string
    var isListed: bool
    var tags: Option<seq<string>>
    var statsUpdatedAt: int
    var stats: Option<Doc>
    var prices: Option<map<string, real>>
    var subscribers: int
    var premiumSubscribers: int
    var medianPostViews: int
    var avgPostViews: int
    var status: int
    var mainLanguage: string
    var restrictedFrom: int
    var restrictedTill: int
    var restrictionReason: string
    var notificationsOn: real
    var firstPostDate: int
    var totalPosts: int
    var selectValues: map<string, Holder>

    constructor ()
      ensures forall c :: Field(c) == Zero(c)
    {
      id := 0;
      createdAt, updatedAt, statsUpdatedAt, restrictedFrom, restrictedTill, firstPostDate := 0, 0, 0, 0, 0, 0;
      tgId, subscribers, premiumSubscribers, medianPostViews, avgPostViews, status, totalPosts := 0, 0, 0, 0, 0, 0, 0;
      tgUsername, tgName, tgDescription, tgPicture := "", "", "", "";
      commentary, mainLanguage, restrictionReason := "", "", "";
      isListed := false;
      tags := None;
      stats := None;
      prices := None;
      notificationsOn := 0.0;
      selectValues := map[];
    }

    function Field(c: Column): (v: Value)
      reads this
      ensures OfType(v, TypeOf(c))
    {
      match c
      case Id => IdValue(id)
      case CreatedAt => TimeValue(createdAt)
      case UpdatedAt => TimeValue(updatedAt)
      case TgId => IntValue(tgId)
      case TgUsername => StrValue(tgUsername)
      case TgName => StrValue(tgName)
      case TgDescription => StrValue(tgDescription)
      case TgPicture => StrValue(tgPicture)
      case Commentary => StrValue(commentary)
      case IsListed => BoolValue(isListed)
      case Tags => TagsValue(tags)
      case StatsUpdatedAt => TimeValue(statsUpdatedAt)
      case Stats => StatsValue(stats)
      case Prices => PricesValue(prices)
      case Subscribers => IntValue(subscribers)
      case PremiumSubscribers => IntValue(premiumSubscribers)
      case MedianPostViews => IntValue(medianPostViews)
      case AvgPostViews => IntValue(avgPostViews)
      case Status => IntValue(status)
      case MainLanguage => StrValue(mainLanguage)
      case RestrictedFrom => TimeValue(restrictedFrom)
      case RestrictedTill => TimeValue(restrictedTill)
      case RestrictionReason => StrValue(restrictionReason)
      case NotificationsOn => FloatValue(notificationsOn)
      case FirstPostDate => TimeValue(firstPostDate)
      case TotalPosts => IntValue(totalPosts)
      case Other(name) => Chosen(if name in selectValues then Some(selectValues[name]) else None)
    }


    // The switch, a few columns at a time: the field named by c takes the value, and no other field changes.
    method AssignTime(c: Column, h: Holder) returns (r: Option<AssignError>)
      requires c.CreatedAt? || c.UpdatedAt? || c.StatsUpdatedAt?
      modifies this
      ensures r == Failure(Taken(c, h, old(Field(c)))) && Field(c) == After(Taken(c, h, old(Field(c))), old(Field(c)))
      ensures forall d | d != c :: Field(d) == old(Field(d))
      ensures r.None? && h.t.Some? ==> h.t.value == match c
        case CreatedAt => createdAt
        case UpdatedAt => updatedAt
        case StatsUpdatedAt => statsUpdatedAt
    {
      match c {
        case CreatedAt =>
          if !h.NullTime? { return Some(UnexpectedType(c)); }
          if h.t.Some? { createdAt := h.t.value; }
        case UpdatedAt =>
          if !h.NullTime? { return Some(UnexpectedType(c)); }
          if h.t.Some? { updatedAt := h.t.value; }
        case StatsUpdatedAt =>
          if !h.NullTime? { return Some(UnexpectedType(c)); }
          if h.t.Some? { statsUpdatedAt := h.t.value; }
      }
      return None;
    }

    // When the channel was restricted and first posted.
    method AssignDate(c: Column, h: Holder) returns (r: Option<AssignError>)
      requires c.RestrictedFrom? || c.RestrictedTill? || c.FirstPostDate?
      modifies this
      ensures r == Failure(Taken(c, h, old(Field(c)))) && Field(c) == After(Taken(c, h, old(Field(c))), old(Field(c)))
      ensures forall d | d != c :: Field(d) == old(Field(d))
      ensures r.None? && h.t.Some? ==> h.t.value == match c
        case RestrictedFrom => restrictedFrom
        case RestrictedTill => restrictedTill
        case FirstPostDate => firstPostDate
    {
      match c {
        case RestrictedFrom =>
          if !h.NullTime? { return Some(UnexpectedType(c)); }
          if h.t.Some? { restrictedFrom := h.t.value; }
        case RestrictedTill =>
          if !h.NullTime? { return Some(UnexpectedType(c)); }
          if h.t.Some? { restrictedTill := h.t.value; }
        case FirstPostDate =>
          if !h.NullTime? { return Some(UnexpectedType(c)); }
          if h.t.Some? { firstPostDate := h.t.value; }
      }
      return None;
    }

    // Whole numbers.
    method AssignInt(c: Column, h: Holder) returns (r: Option<AssignError>)
      requires c.TgId? || c.Status? || c.TotalPosts?
      modifies this
      ensures r == Failure(Taken(c, h, old(Field(c)))) && Field(c) == After(Taken(c, h, old(Field(c))), old(Field(c)))
      ensures forall d | d != c :: Field(d) == old(Field(d))
      ensures r.None? && h.n.Some? ==> h.n.value == match c
        case TgId => tgId
        case Status => status
        case TotalPosts => totalPosts
    {
      match c {
        case TgId =>
          if !h.NullInt64? { return Some(UnexpectedType(c)); }
          if h.n.Some? { tgId := h.n.value; }
        case Status =>
          if !h.NullInt64? { return Some(UnexpectedType(c)); }
          if h.n.Some? { status := h.n.value; }
        case TotalPosts =>
          if !h.NullInt64? { return Some(UnexpectedType(c)); }
          if h.n.Some? { totalPosts := h.n.value; }
      }
      return None;
    }

    // The size and the views of the audience.
    method AssignAudience(c: Column, h: Holder) returns (r: Option<AssignError>)
      requires c.Subscribers? || c.PremiumSubscribers? || c.MedianPostViews? || c.AvgPostViews?
      modifies this
      ensures r == Failure(Taken(c, h, old(Field(c)))) && Field(c) == After(Taken(c, h, old(Field(c))), old(Field(c)))
      ensures forall d | d != c :: Field(d) == old(Field(d))
      ensures r.None? && h.n.Some? ==> h.n.value == match c
        case Subscribers => subscribers
        case PremiumSubscribers => premiumSubscribers
        case MedianPostViews => medianPostViews
        case AvgPostViews => avgPostViews
    {
      match c {
        case Subscribers =>
          if !h.NullInt64? { return Some(UnexpectedType(c)); }
          if h.n.Some? { subscribers := h.n.value; }
        case PremiumSubscribers =>
          if !h.NullInt64? { return Some(UnexpectedType(c)); }
          if h.n.Some? { premiumSubscribers := h.n.value; }
        case MedianPostViews =>
          if !h.NullInt64? { return Some(UnexpectedType(c)); }
          if h.n.Some? { medianPostViews := h.n.value; }
        case AvgPostViews =>
          if !h.NullInt64? { return Some(UnexpectedType(c)); }
          if h.n.Some? { avgPostViews := h.n.value; }
      }
      return None;
    }

    // The flag, the rate and the id.
    method AssignScalar(c: Column, h: Holder) returns (r: Option<AssignError>)
      requires TypeOf(c).BoolType? || TypeOf(c).FloatType? || TypeOf(c).IdType?
      modifies this
      ensures r == Failure(Taken(c, h, old(Field(c)))) && Field(c) == After(Taken(c, h, old(Field(c))), old(Field(c)))
      ensures forall d | d != c :: Field(d) == old(Field(d))
      ensures r.None? ==> match h
        case Uuid(x) => id == x
        case NullBool(Some(b)) => isListed == b
        case NullFloat64(Some(x)) => notificationsOn == x
        case _ => true
    {
      match c {
        case Id =>
          if !h.Uuid? { return Some(UnexpectedType(c)); }
          id := h.id;
        case IsListed =>
          if !h.NullBool? { return Some(UnexpectedType(c)); }
          if h.b.Some? { isListed := h.b.value; }
        case NotificationsOn =>
          if !h.NullFloat64? { return Some(UnexpectedType(c)); }
          if h.r.Some? { notificationsOn := h.r.value; }
      }
      return None;
    }

    // Strings.
    method AssignString(c: Column, h: Holder) returns (r: Option<AssignError>)
      requires c.Commentary? || c.MainLanguage? || c.RestrictionReason?
      modifies this
      ensures r == Failure(Taken(c, h, old(Field(c)))) && Field(c) == After(Taken(c, h, old(Field(c))), old(Field(c)))
      ensures forall d | d != c :: Field(d) == old(Field(d))
      ensures r.None? && h.s.Some? ==> h.s.value == match c
        case Commentary => commentary
        case MainLanguage => mainLanguage
        case RestrictionReason => restrictionReason
    {
      match c {
        case Commentary =>
          if !h.NullString? { return Some(UnexpectedType(c)); }
          if h.s.Some? { commentary := h.s.value; }
        case MainLanguage =>
          if !h.NullString? { return Some(UnexpectedType(c)); }
          if h.s.Some? { mainLanguage := h.s.value; }
        case RestrictionReason =>
          if !h.NullString? { return Some(UnexpectedType(c)); }
          if h.s.Some? { restrictionReason := h.s.value; }
      }
      return None;
    }

    // What Telegram shows of the channel.
    method AssignTelegram(c: Column, h: Holder) returns (r: Option<AssignError>)
      requires c.TgUsername? || c.TgName? || c.TgDescription? || c.TgPicture?
      modifies this
      ensures r == Failure(Taken(c, h, old(Field(c)))) && Field(c) == After(Taken(c, h, old(Field(c))), old(Field(c)))
      ensures forall d | d != c :: Field(d) == old(Field(d))
      ensures r.None? && h.s.Some? ==> h.s.value == match c
        case TgUsername => tgUsername
        case TgName => tgName
        case TgDescription => tgDescription
        case TgPicture => tgPicture
    {
      match c {
        case TgUsername =>
          if !h.NullString? { return Some(UnexpectedType(c)); }
          if h.s.Some? { tgUsername := h.s.value; }
        case TgName =>
          if !h.NullString? { return Some(UnexpectedType(c)); }
          if h.s.Some? { tgName := h.s.value; }
        case TgDescription =>
          if !h.NullString? { return Some(UnexpectedType(c)); }
          if h.s.Some? { tgDescription := h.s.value; }
        case TgPicture =>
          if !h.NullString? { return Some(UnexpectedType(c)); }
          if h.s.Some? { tgPicture := h.s.value; }
      }
      return None;
    }

    // The column that holds a JSON list.
    method AssignTags(c: Column, h: Holder) returns (r: Option<AssignError>)
      requires c == Tags
      modifies this
      ensures r == Failure(Taken(c, h, old(Field(c)))) && Field(c) == After(Taken(c, h, old(Field(c))), old(Field(c)))
      ensures forall d | d != c :: Field(d) == old(Field(d))
      ensures r.None? && h.text.Some? ==> forall p: nat ::
        TagIn(TagsValue(tags), p) == TagRead(TagIn(TagsValue(old(tags)), p), h.text.value.j, p)
      ensures r.None? && h.text.Some? ==> (h.text.value.j.Null? <==> tags.None?)
    {
      if !h.Bytes? { return Some(UnexpectedType(c)); }
      if h.text.Some? {
        if h.text.value.Malformed? { return Some(BadJson(c)); }
        var read := DecodeTags(tags, h.text.value.j);
        if read.None? { return Some(BadJson(c)); }
        tags := read.value;
      }
      return None;
    }

    // Columns that hold a JSON object.
    method AssignJson(c: Column, h: Holder) returns (r: Option<AssignError>)
      requires c.Stats? || c.Prices?
      modifies this
      ensures r == Failure(Taken(c, h, old(Field(c)))) && Field(c) == After(Taken(c, h, old(Field(c))), old(Field(c)))
      ensures forall d | d != c :: Field(d) == old(Field(d))
      ensures r.None? && h.text.Some? && c.Stats? ==> forall key ::
        StatIn(StatsValue(stats), key) == StatRead(StatIn(StatsValue(old(stats)), key), h.text.value.j, key)
      ensures r.None? && h.text.Some? && c.Prices? ==> forall key ::
        PriceIn(PricesValue(prices), key) == PriceRead(PriceIn(PricesValue(old(prices)), key), h.text.value.j, key)
      ensures r.None? && h.text.Some? ==> (h.text.value.j.Null? <==> IsNil(Field(c)))
    {
      match c {
        case Stats =>
          if !h.Bytes? { return Some(UnexpectedType(c)); }
          if h.text.Some? {
            if h.text.value.Malformed? { return Some(BadJson(c)); }
            var read := DecodeStats(stats, h.text.value.j);
            if read.None? { return Some(BadJson(c)); }
            stats := read.value;
          }
        case Prices =>
          if !h.Bytes? { return Some(UnexpectedType(c)); }
          if h.text.Some? {
            if h.text.value.Malformed? { return Some(BadJson(c)); }
            var read := DecodePrices(prices, h.text.value.j);
            if read.None? { return Some(BadJson(c)); }
            prices := read.value;
          }
      }
      return None;
    }

    // One round of the loop.
    method AssignOne(c: Column, h: Holder) returns (r: Option<AssignError>)
      modifies this
      ensures r == Failure(Taken(c, h, old(Field(c)))) && Field(c) == After(Taken(c, h, old(Field(c))), old(Field(c)))
      ensures forall d | d != c :: Field(d) == old(Field(d))
    {
      match c
      case CreatedAt | UpdatedAt | StatsUpdatedAt => r := AssignTime(c, h);
      case RestrictedFrom | RestrictedTill | FirstPostDate => r := AssignDate(c, h);
      case TgId | Status | TotalPosts => r := AssignInt(c, h);
      case Subscribers | PremiumSubscribers | MedianPostViews | AvgPostViews => r := AssignAudience(c, h);
      case Id | IsListed | NotificationsOn => r := AssignScalar(c, h);
      case TgUsername | TgName | TgDescription | TgPicture => r := AssignTelegram(c, h);
      case Commentary | MainLanguage | RestrictionReason => r := AssignString(c, h);
      case Tags => r := AssignTags(c, h);
      case Stats | Prices => r := AssignJson(c, h);
      case Other(name) =>
        selectValues := selectValues[name := h];
        r := None;
    }

    // Values are assigned in order up to the first that does not fit; what a failed decoding leaves in its own
    // field is not specified.
    method AssignValues(columns: seq<Column>, values: seq<Holder>) returns (r: Option<AssignError>)
      modifies this
      ensures r == Verdict(columns, values)
      ensures |values| < |columns| ==> forall c :: Field(c) == old(Field(c))
      ensures |columns| <= |values| ==>
        var k := FirstBad(columns, values, 0);
        forall c | k < |columns| ==> c != columns[k] :: Field(c) == FieldAfter(old(Field(c)), c, columns, values, k)
      ensures |columns| <= |values| ==>
        var k := FirstBad(columns, values, 0);
        forall key | k < |columns| ==> columns[k] != Prices ::
          PriceIn(PricesValue(prices), key) == PriceHeld(PricesValue(old(prices)), columns, values, k, key)
      ensures |columns| <= |values| ==>
        var k := FirstBad(columns, values, 0);
        forall key | k < |columns| ==> columns[k] != Stats ::
          StatIn(StatsValue(stats), key) == StatHeld(StatsValue(old(stats)), columns, values, k, key)
      ensures |columns| <= |values| ==>
        var k := FirstBad(columns, values, 0);
        forall p: nat | k < |columns| ==> columns[k] != Tags ::
          TagIn(TagsValue(tags), p) == TagHeld(TagsValue(old(tags)), Tags, columns, values, k, p)
    {
      if |values| < |columns| { return Some(TooFewValues); }
      ObjectsAreHeld(Field(Prices), Field(Stats), columns, values, FirstBad(columns, values, 0));
      ListIsHeld(Field(Tags), columns, values, FirstBad(columns, values, 0));
      for i := 0 to |columns|
        invariant FirstBad(columns, values, i) == FirstBad(columns, values, 0)
        invariant forall c :: Field(c) == FieldAfter(old(Field(c)), c, columns, values, i)
      {
        label Before:
        GoodIsTaken(columns[i], values[i], Field(columns[i]));
        var e := AssignOne(columns[i], values[i]);
        if e.Some? { return e; }
        assert forall c :: Field(c) == FieldAfter(old(Field(c)), c, columns, values, i + 1) by {
          assert forall c | c != columns[i] :: Field(c) == old@Before(Field(c));
        }
      }
      return None;
    }
  }

  function Failure(t: Result<Value, AssignError>): Option<AssignError> {
    if t.Err? then Some(t.error) else None
  }

  function After(t: Result<Value, AssignError>, was: Value): Value {
    if t.Ok? then t.value else was
  }

  // ---------- Assigning a whole row ----------

  predicate Decodable(t: FieldType, text: Text)
    requires IsJson(t)
  {
    text.Document? && match text.j
      case Null => true
      case Arr(items) => t.TagsType? && forall k | 0 <= k < |items| :: items[k].Str? || items[k].Null?
      case Obj(fields) =>
        t.StatsType? || (t.PricesType? && forall k | k in fields :: fields[k].Num? || fields[k].Null?)
      case _ => false
  }

  // The value can be assigned, whatever the field holds.
  predicate Good(c: Column, h: Holder) {
    var t := TypeOf(c);
    Fits(h, t) && (IsJson(t) && h.text.Some? ==> Decodable(t, h.text.value))
  }

  lemma GoodIsTaken(c: Column, h: Holder, was: Value)
    requires OfType(was, TypeOf(c))
    ensures Failure(Taken(c, h, was))
      == if Good(c, h) then None else Some(if Fits(h, TypeOf(c)) then BadJson(c) else UnexpectedType(c))
  {
  }

  function FirstBad(columns: seq<Column>, values: seq<Holder>, i: nat): (k: nat)
    requires i <= |columns| <= |values|
    ensures i <= k <= |columns| && (k < |columns| ==> !Good(columns[k], values[k]))
    ensures forall j | i <= j < k :: Good(columns[j], values[j])
    decreases |columns| - i
  {
    if i == |columns| || !Good(columns[i], values[i]) then i else FirstBad(columns, values, i + 1)
  }

  function Verdict(columns: seq<Column>, values: seq<Holder>): Option<AssignError> {
    if |values| < |columns| then Some(TooFewValues)
    else
      var k := FirstBad(columns, values, 0);
      if k == |columns| then None
      else Some(if Fits(values[k], TypeOf(columns[k])) then BadJson(columns[k]) else UnexpectedType(columns[k]))
  }

  // Field c, v to begin with, after the first k values.
  function FieldAfter(v: Value, c: Column, columns: seq<Column>, values: seq<Holder>, k: nat): (r: Value)
    requires k <= |columns| <= |values| && OfType(v, TypeOf(c))
    ensures OfType(r, TypeOf(c))
  {
    if k == 0 then v
    else
      var was := FieldAfter(v, c, columns, values, k - 1);
      if columns[k - 1] == c then After(Taken(c, values[k - 1], was), was) else was
  }

  function Zero(c: Column): (v: Value)
    ensures OfType(v, TypeOf(c))
  {
    match TypeOf(c)
    case IdType => IdValue(0)
    case TimeType => TimeValue(0)
    case IntType => IntValue(0)
    case StrType => StrValue("")
    case BoolType => BoolValue(false)
    case FloatType => FloatValue(0.0)
    case TagsType => TagsValue(None)
    case StatsType => StatsValue(None)
    case PricesType => PricesValue(None)
    case NoField => Chosen(None)
  }

  // ---------- The two tables agree ----------

  // The values are the holders made for the columns, filled by the driver.
  predicate Filled(columns: seq<Column>, values: seq<Holder>) {
    |values| == |columns| && forall i | 0 <= i < |columns| :: SameHolder(NewHolder(columns[i]), values[i])
  }

  lemma HolderFits(c: Column, h: Holder)
    requires SameHolder(NewHolder(c), h)
    ensures Fits(h, TypeOf(c))
  {
  }

  // For every column list, repeats and unknown names included, assignment never meets an unexpected type;
  // it fails exactly when some JSON column holds text that cannot be decoded, and names the first such column.
  lemma FilledNeverMismatch(columns: seq<Column>, values: seq<Holder>)
    requires Filled(columns, values)
    ensures Verdict(columns, values) == None <==> forall i | 0 <= i < |columns| && IsJson(TypeOf(columns[i])) ::
      values[i].Bytes? && (values[i].text.Some? ==> Decodable(TypeOf(columns[i]), values[i].text.value))
    ensures Verdict(columns, values) != None ==> exists i | 0 <= i < |columns| ::
      && Verdict(columns, values) == Some(BadJson(columns[i])) && IsJson(TypeOf(columns[i]))
      && forall j | 0 <= j < i :: Good(columns[j], values[j])
  {
    forall i | 0 <= i < |columns| ensures Fits(values[i], TypeOf(columns[i])) { HolderFits(columns[i], values[i]); }
    var k := FirstBad(columns, values, 0);
    if k < |columns| { assert Verdict(columns, values) == Some(BadJson(columns[k])); }
  }

  // ---------- What a field ends as ----------

  // Value j counts for column c: it is not NULL, and for JSON not empty either.
  predicate Counts(c: Column, columns: seq<Column>, values: seq<Holder>, j: nat)
    requires j < |columns| <= |values| && (columns[j] == c ==> Fits(values[j], TypeOf(c)))
  {
    var t := TypeOf(c);
    columns[j] == c && if IsJson(t) then values[j].text.Some? else Present(values[j], t).Some?
  }

  // A field, JSON or not, keeps what it had through values that do not count.
  lemma {:induction false} NoneCounts(v: Value, c: Column, columns: seq<Column>, values: seq<Holder>, i: nat, k: nat)
    requires i <= k <= |columns| <= |values| && OfType(v, TypeOf(c))
    requires forall j | i <= j < k && columns[j] == c :: Fits(values[j], TypeOf(c))
    requires forall j | i <= j < k :: !Counts(c, columns, values, j)
    ensures FieldAfter(v, c, columns, values, k) == FieldAfter(v, c, columns, values, i)
  {
    if i < k {
      NoneCounts(v, c, columns, values, i, k - 1);
      assert !Counts(c, columns, values, k - 1);
    }
  }

  // A field that is not JSON ends as its last value that is not NULL, whatever came before it.
  lemma LastPresentWins(v: Value, c: Column, columns: seq<Column>, values: seq<Holder>, i: nat, k: nat)
    requires i < k <= |columns| <= |values| && OfType(v, TypeOf(c)) && !IsJson(TypeOf(c))
    requires forall j | i <= j < k && columns[j] == c :: Fits(values[j], TypeOf(c))
    requires Counts(c, columns, values, i) && forall j | i < j < k :: !Counts(c, columns, values, j)
    ensures Some(FieldAfter(v, c, columns, values, k)) == Present(values[i], TypeOf(c))
    ensures var after := FieldAfter(v, c, columns, values, k);
      if c.Other? then after == Chosen(Some(values[i]))
      else
        match values[i]
        case Uuid(x) => after == IdValue(x)
        case NullTime(Some(t)) => after == TimeValue(t)
        case NullInt64(Some(n)) => after == IntValue(n)
        case NullString(Some(s)) => after == StrValue(s)
        case NullBool(Some(b)) => after == BoolValue(b)
        case NullFloat64(Some(x)) => after == FloatValue(x)
        case _ => false
  {
    NoneCounts(v, c, columns, values, i + 1, k);
  }

  // A NULL id is read as the zero id, which counts as a value: if it is the last id of the row, it is assigned.
  lemma NullIdIsAssigned(v: Value, columns: seq<Column>, values: seq<Holder>, i: nat, k: nat)
    requires i < k <= |columns| <= |values| && v.IdValue?
    requires columns[i] == Id && values[i] == NewHolder(Id) && forall j | i < j < k :: columns[j] != Id
    ensures FieldAfter(v, Id, columns, values, k) == IdValue(0)
  {
    LastPresentWins(v, Id, columns, values, i, k);
  }

  // The document leaves nothing of what the field held before.
  predicate Overwrites(t: FieldType, was: Value, text: Text)
    requires IsJson(t) && OfType(was, t) && Decodable(t, text)
  {
    match text.j
    case Arr(items) =>
      was.tags.Some? ==> forall k | 0 <= k < |items| && k < |was.tags.value| && items[k].Null? :: was.tags.value[k] == ""
    case Obj(fields) =>
      if t.StatsType? then was.stats.Some? ==> was.stats.value.Keys <= fields.Keys
      else was.prices.Some? ==> was.prices.value.Keys <= fields.Keys
    case _ => true
  }

  lemma MergeIsLast<V>(a: map<string, V>, b: map<string, V>)
    ensures a + b == b <==> a.Keys <= b.Keys
  {
    if a + b == b { assert forall k | k in a :: k in a + b; }
  }

  // A decoded document stands alone in its field exactly when it overwrites: lists do unless a null keeps an old
  // element, objects do only when they mention every key already there.
  lemma OverwritingIsExact(t: FieldType, was: Value, empty: Value, text: Text)
    requires IsJson(t) && OfType(was, t) && Decodable(t, text)
    requires empty in [TagsValue(None), StatsValue(None), PricesValue(None)] && OfType(empty, t)
    ensures Decoded(t, was, text) == Decoded(t, empty, text) <==> Overwrites(t, was, text)
  {
    match text.j {
      case Arr(items) =>
        if was.tags.Some? { TagsOverwritten(was.tags.value, items); }
      case Obj(fields) =>
        if t.StatsType? && was.stats.Some? {
          MergeIsLast(was.stats.value, fields);
          assert map[] + fields == fields;
        } else if t.PricesType? && was.prices.Some? {
          PricesOverwritten(was.prices.value, fields);
        }
      case _ =>
    }
  }

  lemma TagsOverwritten(before: seq<string>, items: seq<Json>)
    requires forall k | 0 <= k < |items| :: items[k].Str? || items[k].Null?
    ensures DecodeTags(Some(before), Arr(items)) == DecodeTags(None, Arr(items))
      <==> forall k | 0 <= k < |items| && k < |before| && items[k].Null? :: before[k] == ""
  {
    var x, y := DecodeTags(Some(before), Arr(items)).value.value, DecodeTags(None, Arr(items)).value.value;
    if forall k | 0 <= k < |items| && k < |before| && items[k].Null? :: before[k] == "" {
      assert x == y;
    }
    if x == y {
      forall k | 0 <= k < |items| && k < |before| && items[k].Null? ensures before[k] == "" {
        assert x[k] == y[k];
      }
    }
  }

  lemma PricesOverwritten(before: map<string, real>, fields: Doc)
    requires forall k | k in fields :: fields[k].Num? || fields[k].Null?
    ensures DecodePrices(Some(before), Obj(fields)) == DecodePrices(None, Obj(fields)) <==> before.Keys <= fields.Keys
  {
    var read := map k | k in fields :: if fields[k].Num? then fields[k].n else 0.0;
    assert read.Keys == fields.Keys && map[] + read == read;
    MergeIsLast(before, read);
  }

  // ---------- JSON columns that occur more than once ----------

  // A JSON field ends as its last document decoded into what the field held at that point.
  lemma LastTextDecides(v: Value, c: Column, columns: seq<Column>, values: seq<Holder>, i: nat, k: nat)
    requires i < k <= |columns| <= |values| && OfType(v, TypeOf(c)) && IsJson(TypeOf(c))
    requires columns[i] == c && Good(c, values[i]) && values[i].text.Some?
    requires forall j | i < j < k && columns[j] == c :: values[j] == Bytes(None)
    ensures Some(FieldAfter(v, c, columns, values, k))
      == Decoded(TypeOf(c), FieldAfter(v, c, columns, values, i), values[i].text.value)
  {
    NoneCounts(v, c, columns, values, i + 1, k);
    GoodIsTaken(c, values[i], FieldAfter(v, c, columns, values, i));
  }

  // The keys that an object field has.
  function KeysIn(v: Value): set<string> {
    match v
    case StatsValue(Some(m)) => m.Keys
    case PricesValue(Some(m)) => m.Keys
    case _ => {}
  }

  // Read off the texts: the keys of all objects so far, since the last JSON null.
  function KeysHeld(v: Value, c: Column, columns: seq<Column>, values: seq<Holder>, k: nat): set<string>
    requires k <= |columns| <= |values|
  {
    if k == 0 then KeysIn(v)
    else
      var held := KeysHeld(v, c, columns, values, k - 1);
      if columns[k - 1] != c then held
      else
        match values[k - 1]
        case Bytes(Some(Document(Obj(fields)))) => held + fields.Keys
        case Bytes(Some(Document(Null))) => {}
        case _ => held
  }

  lemma {:induction false} KeysAreHeld(v: Value, c: Column, columns: seq<Column>, values: seq<Holder>, k: nat)
    requires k <= |columns| <= |values| && OfType(v, TypeOf(c)) && TypeOf(c) in [StatsType, PricesType]
    requires forall j | 0 <= j < k && columns[j] == c :: Good(c, values[j])
    ensures KeysIn(FieldAfter(v, c, columns, values, k)) == KeysHeld(v, c, columns, values, k)
  {
    if k > 0 {
      KeysAreHeld(v, c, columns, values, k - 1);
      if columns[k - 1] == c && values[k - 1].text.Some? {
        KeysAfterText(c, FieldAfter(v, c, columns, values, k - 1), values[k - 1].text.value);
      }
    }
  }

  lemma KeysAfterText(c: Column, was: Value, text: Text)
    requires TypeOf(c) in [StatsType, PricesType] && OfType(was, TypeOf(c)) && Decodable(TypeOf(c), text)
    ensures var after := Decoded(TypeOf(c), was, text);
      && after.Some?
      && KeysIn(after.value) == if text.j.Null? then {} else KeysIn(was) + text.j.fields.Keys
  {
  }

  // The element at place p of a list field.
  function TagIn(v: Value, p: nat): Option<string> {
    match v
    case TagsValue(Some(tags)) => if p < |tags| then Some(tags[p]) else None
    case _ => None
  }

  // The element after a document: a string stands, and null keeps what is there.
  function TagRead(held: Option<string>, j: Json, p: nat): Option<string> {
    match j
    case Arr(items) =>
      if p >= |items| then None
      else if items[p].Str? then Some(items[p].s)
      else if held.Some? then held else Some("")
    case Null => None
    case _ => held
  }

  // Read off the texts: the last string written at place p by lists that all reach that far.
  function TagHeld(v: Value, c: Column, columns: seq<Column>, values: seq<Holder>, k: nat, p: nat): Option<string>
    requires k <= |columns| <= |values|
  {
    if k == 0 then TagIn(v, p)
    else
      var held := TagHeld(v, c, columns, values, k - 1, p);
      if columns[k - 1] != c then held
      else
        match values[k - 1]
        case Bytes(Some(Document(j))) => TagRead(held, j, p)
        case _ => held
  }

  lemma {:induction false} TagsAreHeld(v: Value, c: Column, columns: seq<Column>, values: seq<Holder>, k: nat, p: nat)
    requires k <= |columns| <= |values| && OfType(v, TypeOf(c)) && TypeOf(c) == TagsType
    requires forall j | 0 <= j < k && columns[j] == c :: Good(c, values[j])
    ensures TagIn(FieldAfter(v, c, columns, values, k), p) == TagHeld(v, c, columns, values, k, p)
  {
    if k > 0 {
      TagsAreHeld(v, c, columns, values, k - 1, p);
      if columns[k - 1] == c && values[k - 1].text.Some? {
        assert Decodable(TagsType, values[k - 1].text.value);
      }
    }
  }

  lemma ListIsHeld(v: Value, columns: seq<Column>, values: seq<Holder>, k: nat)
    requires k <= |columns| <= |values| && v.TagsValue?
    requires forall j | 0 <= j < k && columns[j] == Tags :: Good(Tags, values[j])
    ensures forall p: nat ::
      TagIn(FieldAfter(v, Tags, columns, values, k), p) == TagHeld(v, Tags, columns, values, k, p)
  {
    forall p: nat ensures TagIn(FieldAfter(v, Tags, columns, values, k), p) == TagHeld(v, Tags, columns, values, k, p) {
      TagsAreHeld(v, Tags, columns, values, k, p);
    }
  }

  // ---------- The prices and stats of a row, key by key ----------

  // The price under a key of the field.
  function PriceIn(v: Value, key: string): Option<real> {
    match v
    case PricesValue(Some(prices)) => if key in prices then Some(prices[key]) else None
    case _ => None
  }

  // The price after a document: its number, 0 for null, and what was held when the key is not mentioned.
  function PriceRead(held: Option<real>, j: Json, key: string): Option<real> {
    match j
    case Obj(fields) =>
      if key !in fields then held else if fields[key].Num? then Some(fields[key].n) else Some(0.0)
    case Null => None
    case _ => held
  }

  // Read off the texts: the price last written under the key.
  function PriceHeld(v: Value, columns: seq<Column>, values: seq<Holder>, k: nat, key: string): Option<real>
    requires k <= |columns| <= |values|
  {
    if k == 0 then PriceIn(v, key)
    else
      var held := PriceHeld(v, columns, values, k - 1, key);
      if columns[k - 1] != Prices then held
      else
        match values[k - 1]
        case Bytes(Some(Document(j))) => PriceRead(held, j, key)
        case _ => held
  }

  lemma PriceAfterText(was: Value, text: Text, key: string)
    requires was.PricesValue? && Decodable(PricesType, text)
    ensures var after := Decoded(PricesType, was, text);
      after.Some? && PriceIn(after.value, key) == PriceRead(PriceIn(was, key), text.j, key)
  {
  }

  // Every key of the prices holds the number the row last wrote there, 0 for null, and any other key what it held.
  lemma {:induction false} PricesAreHeld(v: Value, columns: seq<Column>, values: seq<Holder>, k: nat, key: string)
    requires k <= |columns| <= |values| && v.PricesValue?
    requires forall j | 0 <= j < k && columns[j] == Prices :: Good(Prices, values[j])
    ensures PriceIn(FieldAfter(v, Prices, columns, values, k), key) == PriceHeld(v, columns, values, k, key)
  {
    if k > 0 {
      PricesAreHeld(v, columns, values, k - 1, key);
      if columns[k - 1] == Prices && values[k - 1].text.Some? {
        PriceAfterText(FieldAfter(v, Prices, columns, values, k - 1), values[k - 1].text.value, key);
      }
    }
  }

  // The value under a key of the stats.
  function StatIn(v: Value, key: string): Option<Json> {
    match v
    case StatsValue(Some(stats)) => if key in stats then Some(stats[key]) else None
    case _ => None
  }

  // The value after a document: its own, whatever it is, and what was held when the key is not mentioned.
  function StatRead(held: Option<Json>, j: Json, key: string): Option<Json> {
    match j
    case Obj(fields) => if key in fields then Some(fields[key]) else held
    case Null => None
    case _ => held
  }

  // Read off the texts: the value last written under the key.
  function StatHeld(v: Value, columns: seq<Column>, values: seq<Holder>, k: nat, key: string): Option<Json>
    requires k <= |columns| <= |values|
  {
    if k == 0 then StatIn(v, key)
    else
      var held := StatHeld(v, columns, values, k - 1, key);
      if columns[k - 1] != Stats then held
      else
        match values[k - 1]
        case Bytes(Some(Document(j))) => StatRead(held, j, key)
        case _ => held
  }

  lemma StatAfterText(was: Value, text: Text, key: string)
    requires was.StatsValue? && Decodable(StatsType, text)
    ensures var after := Decoded(StatsType, was, text);
      after.Some? && StatIn(after.value, key) == StatRead(StatIn(was, key), text.j, key)
  {
  }

  // Every key of the stats holds the value the row last wrote there, and any other key what it held.
  lemma {:induction false} StatsAreHeld(v: Value, columns: seq<Column>, values: seq<Holder>, k: nat, key: string)
    requires k <= |columns| <= |values| && v.StatsValue?
    requires forall j | 0 <= j < k && columns[j] == Stats :: Good(Stats, values[j])
    ensures StatIn(FieldAfter(v, Stats, columns, values, k), key) == StatHeld(v, columns, values, k, key)
  {
    if k > 0 {
      StatsAreHeld(v, columns, values, k - 1, key);
      if columns[k - 1] == Stats && values[k - 1].text.Some? {
        StatAfterText(FieldAfter(v, Stats, columns, values, k - 1), values[k - 1].text.value, key);
      }
    }
  }

  lemma ObjectsAreHeld(prices: Value, stats: Value, columns: seq<Column>, values: seq<Holder>, k: nat)
    requires k <= |columns| <= |values| && prices.PricesValue? && stats.StatsValue?
    requires forall j | 0 <= j < k :: Good(columns[j], values[j])
    ensures forall key ::
      PriceIn(FieldAfter(prices, Prices, columns, values, k), key) == PriceHeld(prices, columns, values, k, key)
    ensures forall key ::
      StatIn(FieldAfter(stats, Stats, columns, values, k), key) == StatHeld(stats, columns, values, k, key)
  {
    forall key
      ensures PriceIn(FieldAfter(prices, Prices, columns, values, k), key) == PriceHeld(prices, columns, values, k, key)
      ensures StatIn(FieldAfter(stats, Stats, columns, values, k), key) == StatHeld(stats, columns, values, k, key)
    {
      PricesAreHeld(prices, columns, values, k, key);
      StatsAreHeld(stats, columns, values, k, key);
    }
  }

  // The field holds no list or object at all.
  predicate IsNil(v: Value) {
    v in [TagsValue(None), StatsValue(None), PricesValue(None)]
  }

  // Whether the last text of the column is a JSON null; before any text, whether the field was nil.
  predicate NilHeld(v: Value, c: Column, columns: seq<Column>, values: seq<Holder>, k: nat)
    requires k <= |columns| <= |values|
  {
    if k == 0 then IsNil(v)
    else if columns[k - 1] == c && values[k - 1].Bytes? && values[k - 1].text.Some? then
      values[k - 1].text.value == Document(Null)
    else NilHeld(v, c, columns, values, k - 1)
  }

  // A JSON field ends without a value exactly when its last text is null.
  lemma {:induction false} NilIsHeld(v: Value, c: Column, columns: seq<Column>, values: seq<Holder>, k: nat)
    requires k <= |columns| <= |values| && OfType(v, TypeOf(c)) && IsJson(TypeOf(c))
    requires forall j | 0 <= j < k && columns[j] == c :: Good(c, values[j])
    ensures IsNil(FieldAfter(v, c, columns, values, k)) <==> NilHeld(v, c, columns, values, k)
  {
    if k > 0 {
      NilIsHeld(v, c, columns, values, k - 1);
      if columns[k - 1] == c && values[k - 1].text.Some? { assert Decodable(TypeOf(c), values[k - 1].text.value); }
    }
  }

  // The last text leaves nothing of the earlier ones, judged by the texts alone: an object mentions every key held,
  // and a list has a string wherever something is held.
  ghost predicate Supersedes(v: Value, c: Column, columns: seq<Column>, values: seq<Holder>, i: nat)
    requires i < |columns| <= |values| && values[i].Bytes? && values[i].text.Some? && values[i].text.value.Document?
  {
    match values[i].text.value.j
    case Obj(fields) => KeysHeld(v, c, columns, values, i) <= fields.Keys
    case Arr(items) =>
      forall p | 0 <= p < |items| && items[p].Null? :: TagHeld(v, c, columns, values, i, p) in [None, Some("")]
    case _ => true
  }

  lemma SupersedesIsOverwrites(v: Value, c: Column, columns: seq<Column>, values: seq<Holder>, i: nat)
    requires i < |columns| <= |values| && OfType(v, TypeOf(c)) && IsJson(TypeOf(c))
    requires columns[i] == c && Good(c, values[i]) && values[i].text.Some?
    requires forall j | 0 <= j < i && columns[j] == c :: Good(c, values[j])
    ensures Overwrites(TypeOf(c), FieldAfter(v, c, columns, values, i), values[i].text.value)
      <==> Supersedes(v, c, columns, values, i)
  {
    var was := FieldAfter(v, c, columns, values, i);
    match values[i].text.value.j {
      case Obj(fields) =>
        KeysAreHeld(v, c, columns, values, i);
      case Arr(items) =>
        forall p: nat ensures TagIn(was, p) == TagHeld(v, c, columns, values, i, p) {
          TagsAreHeld(v, c, columns, values, i, p);
        }
        ListOverwrites(was, items);
      case _ =>
    }
  }

  lemma ListOverwrites(was: Value, items: seq<Json>)
    requires was.TagsValue? && Decodable(TagsType, Document(Arr(items)))
    ensures Overwrites(TagsType, was, Document(Arr(items)))
      <==> forall p | 0 <= p < |items| && items[p].Null? :: TagIn(was, p) in [None, Some("")]
  {
    if was.tags.Some? {
      var tags := was.tags.value;
      assert forall p | 0 <= p < |items| && items[p].Null? ::
        TagIn(was, p) in [None, Some("")] <==> (p < |tags| ==> tags[p] == "");
    }
  }

  // Through a whole column list, a JSON field ends as its last document alone exactly when that document
  // supersedes the earlier ones.
  lemma RepeatedColumnEndsAsLast(v: Value, c: Column, columns: seq<Column>, values: seq<Holder>, i: nat, k: nat)
    requires i < k <= |columns| <= |values| && OfType(v, TypeOf(c)) && IsJson(TypeOf(c))
    requires columns[i] == c && Good(c, values[i]) && values[i].text.Some?
    requires forall j | 0 <= j < i && columns[j] == c :: Good(c, values[j])
    requires forall j | i < j < k && columns[j] == c :: values[j] == Bytes(None)
    ensures Some(FieldAfter(v, c, columns, values, k)) == Decoded(TypeOf(c), Zero(c), values[i].text.value)
      <==> Supersedes(v, c, columns, values, i)
  {
    LastTextDecides(v, c, columns, values, i, k);
    OverwritingIsExact(TypeOf(c), FieldAfter(v, c, columns, values, i), Zero(c), values[i].text.value);
    SupersedesIsOverwrites(v, c, columns, values, i);
  }

  // A row that names stats twice: the field of a new channel ends as both objects, not as the last.
  lemma EarlierStatsSurvive(x: Json, y: Json)
    ensures var columns := [Stats, Stats];
      var values := [Bytes(Some(Document(Obj(map["views" := x])))), Bytes(Some(Document(Obj(map["posts" := y]))))];
      && Filled(columns, values) && Verdict(columns, values) == None
      && FieldAfter(Zero(Stats), Stats, columns, values, 2) == StatsValue(Some(map["views" := x, "posts" := y]))
      && FieldAfter(Zero(Stats), Stats, columns, values, 2) != StatsValue(Some(map["posts" := y]))
  {
    var columns := [Stats, Stats];
    var values := [Bytes(Some(Document(Obj(map["views" := x])))), Bytes(Some(Document(Obj(map["posts" := y]))))];
    assert Good(columns[0], values[0]) && Good(columns[1], values[1]);
    assert FieldAfter(Zero(Stats), Stats, columns, values, 0) == Zero(Stats);
    assert map[] + map["views" := x] == map["views" := x];
    assert FieldAfter(Zero(Stats), Stats, columns, values, 1) == StatsValue(Some(map["views" := x]));
    assert map["views" := x] + map["posts" := y] == map["views" := x, "posts" := y];
    assert "views" in map["views" := x, "posts" := y] && "views"[0] != "posts"[0];
  }

  // The field is what the document says, and nothing else: null is no value, a null element or price is empty.
  ghost predicate Says(j: Json, v: Value) {
    match v
    case TagsValue(tags) =>
      if j.Null? then tags.None?
      else
        && j.Arr? && tags.Some? && |tags.value| == |j.items|
        && forall p | 0 <= p < |j.items| :: tags.value[p] == if j.items[p].Str? then j.items[p].s else ""
    case StatsValue(stats) => if j.Null? then stats.None? else j.Obj? && stats == Some(j.fields)
    case PricesValue(prices) =>
      if j.Null? then prices.None?
      else
        && j.Obj? && prices.Some? && prices.value.Keys == j.fields.Keys
        && forall key | key in j.fields :: prices.value[key] == if j.fields[key].Num? then j.fields[key].n else 0.0
    case _ => false
  }

  lemma DocumentSays(c: Column, text: Text)
    requires IsJson(TypeOf(c)) && Decodable(TypeOf(c), text)
    ensures var after := Decoded(TypeOf(c), Zero(c), text);
      after.Some? && Says(text.j, after.value)
  {
    if TypeOf(c).StatsType? && text.j.Obj? { assert map[] + text.j.fields == text.j.fields; }
  }

  // In a row of a new channel, a JSON column that occurs once ends as its document, or empty when it is NULL.
  lemma {:induction false} JsonColumnOnce(c: Column, columns: seq<Column>, values: seq<Holder>, i: nat, k: nat)
    requires i < k <= |columns| <= |values| && IsJson(TypeOf(c)) && columns[i] == c && Good(c, values[i])
    requires forall j | 0 <= j < |columns| && j != i :: columns[j] != c
    ensures FieldAfter(Zero(c), c, columns, values, k)
      == if values[i].text.None? then Zero(c) else Decoded(TypeOf(c), Zero(c), values[i].text.value).value
    ensures values[i].text.None? ==> IsNil(FieldAfter(Zero(c), c, columns, values, k))
    ensures values[i].text.Some? ==> Says(values[i].text.value.j, FieldAfter(Zero(c), c, columns, values, k))
  {
    if values[i].text.Some? { DocumentSays(c, values[i].text.value); }
    if k == i + 1 { ColumnAbsent(Zero(c), c, columns, values, i); } else { JsonColumnOnce(c, columns, values, i, k - 1); }
  }

  lemma {:induction false} ColumnAbsent(v: Value, c: Column, columns: seq<Column>, values: seq<Holder>, k: nat)
    requires k <= |columns| <= |values| && OfType(v, TypeOf(c))
    requires forall j | 0 <= j < k :: columns[j] != c
    ensures FieldAfter(v, c, columns, values, k) == v
  {
    if k > 0 { ColumnAbsent(v, c, columns, values, k - 1); }
  }
}
