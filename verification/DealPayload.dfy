/** The deal target and its message data: conversion to a JSON document for the database and back. */
module DealPayload {
  import opened Wrappers
  import opened Text
  import opened JsonNumbers
  import opened DealWindow

  datatype Json =
    | Null
    | Bool(b: bool)
    | Num(n: real)
    | Str(s: string)
    | Arr(items: seq<Json>)
    | Obj(fields: Doc)

  type Doc = map<string, Json>

  datatype MediaItem = MediaItem(
    fileId: string,
    msgId: int,
    kind: string,
    captionAbove: bool,
    hasSpoiler: bool)

  // A list or map that may be nil; a nil one and an empty one are different values.
  datatype MsgData = MsgData(
    text: string,
    entities: Option<seq<Json>>,
    images: Option<seq<MediaItem>>,
    captionAbove: bool,
    albumId: string,
    previewIds: Option<seq<Json>>,
    dealId: string)

  datatype DealTarget = DealTarget(
    brief: MsgData,
    post: MsgData,
    window: Option<PreferableDatetime>,
    story: Option<Doc>,
    repost: Option<Doc>)

  const ZERO_ITEM := MediaItem("", 0, "", false, false)
  const ZERO_DATA := MsgData("", None, None, false, "", None, "")
  const ZERO_TARGET := DealTarget(ZERO_DATA, ZERO_DATA, None, None, None)

  // ---------- Encoding ----------

  // An omitempty field: absent when empty.
  function Put(m: Doc, empty: bool, key: string, v: Json): Doc {
    if empty then m else m[key := v]
  }

  function NumOf(n: int): Json {
    Num(Stored(n) as real)
  }

  function ItemDoc(i: MediaItem): Doc {
    Put(map["file_id" := Str(i.fileId), "msg_id" := NumOf(i.msgId), "type" := Str(i.kind),
            "caption_above" := Bool(i.captionAbove)],
        !i.hasSpoiler, "has_spoiler", Bool(true))
  }

  function ItemDocs(items: seq<MediaItem>): seq<Json> {
    seq(|items|, k requires 0 <= k < |items| => Obj(ItemDoc(items[k])))
  }

  predicate EmptyList<T>(l: Option<seq<T>>) {
    l.None? || l.value == []
  }

  predicate EmptyDoc(m: Option<Doc>) {
    m.None? || m.value == map[]
  }

  function Items<T>(l: Option<seq<T>>): seq<T> {
    if l.None? then [] else l.value
  }

  // The first four fields of a message's data, and all of them.
  function DataHead(d: MsgData): Doc {
    var m1 := Put(map[], d.text == "", "message_text", Str(d.text));
    var m2 := Put(m1, EmptyList(d.entities), "message_entities", Arr(Items(d.entities)));
    var m3 := Put(m2, EmptyList(d.images), "message_images", Arr(ItemDocs(Items(d.images))));
    Put(m3, !d.captionAbove, "message_caption_above", Bool(true))
  }

  function DataDoc(d: MsgData): Doc {
    var m5 := Put(DataHead(d), d.albumId == "", "message_album_id", Str(d.albumId));
    var m6 := Put(m5, EmptyList(d.previewIds), "message_preview_ids", Arr(Items(d.previewIds)));
    Put(m6, d.dealId == "", "message_deal_id", Str(d.dealId))
  }

  function WindowDoc(p: PreferableDatetime): Doc {
    var m1 := Put(map[], p.dateFrom == "", "date_from", Str(p.dateFrom));
    var m2 := Put(m1, p.dateTo == "", "date_to", Str(p.dateTo));
    var m3 := Put(m2, p.timeFrom == "", "time_from", Str(p.timeFrom));
    Put(m3, p.timeTo == "", "time_to", Str(p.timeTo))
  }

  // omitempty never drops a struct, and drops a pointer only when it is nil.
  function TargetOf(brief: Doc, post: Doc, window: Option<Doc>, story: Option<Doc>, repost: Option<Doc>): Doc {
    var m1: Doc := map["brief_data" := Obj(brief), "post_data" := Obj(post)];
    var m2 := Put(m1, window.None?, "preferable_datetime", if window.None? then Null else Obj(window.value));
    var m3 := Put(m2, EmptyDoc(story), "story_data", if story.None? then Null else Obj(story.value));
    Put(m3, EmptyDoc(repost), "repost_data", if repost.None? then Null else Obj(repost.value))
  }

  function TargetDoc(t: DealTarget): Doc {
    var window := if t.window.None? then None else Some(WindowDoc(t.window.value));
    TargetOf(DataDoc(t.brief), DataDoc(t.post), window, t.story, t.repost)
  }

  // ToMap of a possibly nil receiver.
  function DealTargetToMap(t: Option<DealTarget>): Option<Doc> {
    if t.None? then None else Some(TargetDoc(t.value))
  }

  function MsgDataToMap(d: Option<MsgData>): Option<Doc> {
    if d.None? then None else Some(DataDoc(d.value))
  }

  // ---------- Decoding ----------
  // None is a type mismatch. A missing or null field keeps its zero value.

  predicate Absent(m: Doc, key: string) {
    key !in m || m[key].Null?
  }

  function ReadString(m: Doc, key: string): Option<string> {
    if Absent(m, key) then Some("") else if m[key].Str? then Some(m[key].s) else None
  }

  function ReadBool(m: Doc, key: string): Option<bool> {
    if Absent(m, key) then Some(false) else if m[key].Bool? then Some(m[key].b) else None
  }

  function IntOf(n: real): Option<int> {
    if n.Floor as real == n then ReadBack(n.Floor) else None
  }

  function ReadInt(m: Doc, key: string): Option<int> {
    if Absent(m, key) then Some(0) else if m[key].Num? then IntOf(m[key].n) else None
  }

  function ReadList(m: Doc, key: string): Option<Option<seq<Json>>> {
    if Absent(m, key) then Some(None) else if m[key].Arr? then Some(Some(m[key].items)) else None
  }

  function ReadDoc(m: Doc, key: string): Option<Option<Doc>> {
    if Absent(m, key) then Some(None) else if m[key].Obj? then Some(Some(m[key].fields)) else None
  }

  function DocItem(m: Doc): Option<MediaItem> {
    var fileId, msgId, kind := ReadString(m, "file_id"), ReadInt(m, "msg_id"), ReadString(m, "type");
    var captionAbove, hasSpoiler := ReadBool(m, "caption_above"), ReadBool(m, "has_spoiler");
    if fileId.None? || msgId.None? || kind.None? || captionAbove.None? || hasSpoiler.None? then None
    else Some(MediaItem(fileId.value, msgId.value, kind.value, captionAbove.value, hasSpoiler.value))
  }

  function ItemOf(j: Json): Option<MediaItem> {
    if j.Null? then Some(ZERO_ITEM) else if j.Obj? then DocItem(j.fields) else None
  }

  function ItemsOf(l: seq<Json>): Option<seq<MediaItem>> {
    if l == [] then Some([])
    else
      var first, rest := ItemOf(l[0]), ItemsOf(l[1..]);
      if first.None? || rest.None? then None else Some([first.value] + rest.value)
  }

  function ReadItems(m: Doc, key: string): Option<Option<seq<MediaItem>>> {
    var l := ReadList(m, key);
    if l.None? then None
    else if l.value.None? then Some(None)
    else
      var items := ItemsOf(l.value.value);
      if items.None? then None else Some(items)
  }

  function DocData(m: Doc): Option<MsgData> {
    var text, albumId, dealId :=
      ReadString(m, "message_text"), ReadString(m, "message_album_id"), ReadString(m, "message_deal_id");
    var entities, previewIds := ReadList(m, "message_entities"), ReadList(m, "message_preview_ids");
    var images, captionAbove := ReadItems(m, "message_images"), ReadBool(m, "message_caption_above");
    if text.None? || entities.None? || images.None? || captionAbove.None? || albumId.None? || previewIds.None?
       || dealId.None? then None
    else Some(MsgData(text.value, entities.value, images.value, captionAbove.value, albumId.value, previewIds.value,
                      dealId.value))
  }

  function DocWindow(m: Doc): Option<PreferableDatetime> {
    var dateFrom, dateTo := ReadString(m, "date_from"), ReadString(m, "date_to");
    var timeFrom, timeTo := ReadString(m, "time_from"), ReadString(m, "time_to");
    if dateFrom.None? || dateTo.None? || timeFrom.None? || timeTo.None? then None
    else Some(PreferableDatetime(dateFrom.value, dateTo.value, timeFrom.value, timeTo.value))
  }

  function ReadData(m: Doc, key: string): Option<MsgData> {
    if Absent(m, key) then Some(ZERO_DATA) else if m[key].Obj? then DocData(m[key].fields) else None
  }

  function ReadWindow(m: Doc, key: string): Option<Option<PreferableDatetime>> {
    if Absent(m, key) then Some(None)
    else if m[key].Obj? then
      var w := DocWindow(m[key].fields);
      if w.None? then None else Some(w)
    else None
  }

  function DocTarget(m: Doc): Option<DealTarget> {
    var brief, post := ReadData(m, "brief_data"), ReadData(m, "post_data");
    var window := ReadWindow(m, "preferable_datetime");
    var story, repost := ReadDoc(m, "story_data"), ReadDoc(m, "repost_data");
    if brief.None? || post.None? || window.None? || story.None? || repost.None? then None
    else Some(DealTarget(brief.value, post.value, window.value, story.value, repost.value))
  }

  // FromMap of a possibly nil map.
  function DealTargetFromMap(m: Option<Doc>): Option<DealTarget> {
    if m.None? then Some(ZERO_TARGET) else DocTarget(m.value)
  }

  function MsgDataFromMap(m: Option<Doc>): Option<MsgData> {
    if m.None? then Some(ZERO_DATA) else DocData(m.value)
  }

  // ---------- Reading back what was put ----------

  // What each kind of field reads after an omitempty Put: its value, or the zero value when it was empty.
  function NormalList<T>(l: Option<seq<T>>): Option<seq<T>> {
    if EmptyList(l) then None else l
  }

  function NormalDoc(m: Option<Doc>): Option<Doc> {
    if EmptyDoc(m) then None else m
  }

  // Empty lists and maps become nil; nothing else changes.
  function NormalData(d: MsgData): MsgData {
    d.(entities := NormalList(d.entities), images := NormalList(d.images), previewIds := NormalList(d.previewIds))
  }

  function NormalTarget(t: DealTarget): DealTarget {
    DealTarget(NormalData(t.brief), NormalData(t.post), t.window, NormalDoc(t.story), NormalDoc(t.repost))
  }

  // The item as it comes back: only its message id can change; None when that id no longer fits.
  function Reread(i: MediaItem): Option<MediaItem> {
    var n := ReadBack(Stored(i.msgId));
    if n.None? then None else Some(i.(msgId := n.value))
  }

  function RereadItems(l: seq<MediaItem>): Option<seq<MediaItem>> {
    if l == [] then Some([])
    else
      var first, rest := Reread(l[0]), RereadItems(l[1..]);
      if first.None? || rest.None? then None else Some([first.value] + rest.value)
  }

  // Message data as it comes back.
  function RereadData(d: MsgData): Option<MsgData> {
    var images := RereadItems(Items(d.images));
    if images.None? then None
    else Some(NormalData(d).(images := if EmptyList(d.images) then None else images))
  }

  function RereadTarget(t: DealTarget): Option<DealTarget> {
    var brief, post := RereadData(t.brief), RereadData(t.post);
    if brief.None? || post.None? then None
    else Some(NormalTarget(t).(brief := brief.value, post := post.value))
  }

  lemma IntIsRead(n: int)
    ensures IntOf(Stored(n) as real) == ReadBack(Stored(n))
  {
  }

  lemma ItemIsReread(i: MediaItem)
    ensures DocItem(ItemDoc(i)) == Reread(i)
  {
    IntIsRead(i.msgId);
  }

  lemma {:induction false} ItemsAreReread(l: seq<MediaItem>)
    ensures ItemsOf(ItemDocs(l)) == RereadItems(l)
  {
    if l != [] {
      ItemIsReread(l[0]);
      ItemsAreReread(l[1..]);
      assert ItemDocs(l)[1..] == ItemDocs(l[1..]);
    }
  }

  // The field under key: absent when empty, v otherwise.
  predicate Has(m: Doc, empty: bool, key: string, v: Json) {
    if empty then key !in m else key in m && m[key] == v
  }

  predicate HasData(m: Doc, d: MsgData) {
    && Has(m, d.text == "", "message_text", Str(d.text))
    && Has(m, EmptyList(d.entities), "message_entities", Arr(Items(d.entities)))
    && Has(m, EmptyList(d.images), "message_images", Arr(ItemDocs(Items(d.images))))
    && Has(m, !d.captionAbove, "message_caption_above", Bool(true))
    && Has(m, d.albumId == "", "message_album_id", Str(d.albumId))
    && Has(m, EmptyList(d.previewIds), "message_preview_ids", Arr(Items(d.previewIds)))
    && Has(m, d.dealId == "", "message_deal_id", Str(d.dealId))
  }

  lemma HeadFields(d: MsgData)
    ensures var m := DataHead(d);
      && Has(m, d.text == "", "message_text", Str(d.text))
      && Has(m, EmptyList(d.entities), "message_entities", Arr(Items(d.entities)))
      && Has(m, EmptyList(d.images), "message_images", Arr(ItemDocs(Items(d.images))))
      && Has(m, !d.captionAbove, "message_caption_above", Bool(true))
      && "message_album_id" !in m && "message_preview_ids" !in m && "message_deal_id" !in m
  {
  }

  lemma DataFields(d: MsgData)
    ensures HasData(DataDoc(d), d)
  {
    HeadFields(d);
  }

  lemma StringIsRead(m: Doc, key: string, s: string)
    requires Has(m, s == "", key, Str(s))
    ensures ReadString(m, key) == Some(s)
  {
  }

  lemma BoolIsRead(m: Doc, key: string, b: bool)
    requires Has(m, !b, key, Bool(true))
    ensures ReadBool(m, key) == Some(b)
  {
  }

  lemma ListIsRead(m: Doc, key: string, l: Option<seq<Json>>)
    requires Has(m, EmptyList(l), key, Arr(Items(l)))
    ensures ReadList(m, key) == Some(NormalList(l))
  {
  }

  lemma ImagesAreReread(m: Doc, d: MsgData)
    requires Has(m, EmptyList(d.images), "message_images", Arr(ItemDocs(Items(d.images))))
    ensures var r := RereadItems(Items(d.images));
      ReadItems(m, "message_images")
        == if r.None? then None else if EmptyList(d.images) then Some(None) else Some(r)
  {
    ItemsAreReread(Items(d.images));
  }

  lemma FieldsAreReread(m: Doc, d: MsgData)
    requires HasData(m, d)
    ensures DocData(m) == RereadData(d)
  {
    StringIsRead(m, "message_text", d.text);
    ListIsRead(m, "message_entities", d.entities);
    ImagesAreReread(m, d);
    BoolIsRead(m, "message_caption_above", d.captionAbove);
    StringIsRead(m, "message_album_id", d.albumId);
    ListIsRead(m, "message_preview_ids", d.previewIds);
    StringIsRead(m, "message_deal_id", d.dealId);
  }

  lemma DataIsReread(d: MsgData)
    ensures DocData(DataDoc(d)) == RereadData(d)
  {
    DataFields(d);
    FieldsAreReread(DataDoc(d), d);
  }

  lemma WindowIsReread(p: PreferableDatetime)
    ensures DocWindow(WindowDoc(p)) == Some(p)
  {
  }

  lemma TargetFields(brief: Doc, post: Doc, window: Option<Doc>, story: Option<Doc>, repost: Option<Doc>)
    ensures var m := TargetOf(brief, post, window, story, repost);
      && Has(m, false, "brief_data", Obj(brief)) && Has(m, false, "post_data", Obj(post))
      && Has(m, window.None?, "preferable_datetime", if window.None? then Null else Obj(window.value))
      && ReadDoc(m, "story_data") == Some(NormalDoc(story)) && ReadDoc(m, "repost_data") == Some(NormalDoc(repost))
  {
  }

  lemma DataIsRead(m: Doc, key: string, d: MsgData)
    requires Has(m, false, key, Obj(DataDoc(d)))
    ensures ReadData(m, key) == RereadData(d)
  {
    DataIsReread(d);
  }

  lemma WindowIsRead(m: Doc, key: string, w: Option<PreferableDatetime>)
    requires Has(m, w.None?, key, if w.None? then Null else Obj(WindowDoc(w.value)))
    ensures ReadWindow(m, key) == Some(w)
  {
    if w.Some? { WindowIsReread(w.value); }
  }

  lemma TargetIsReread(t: DealTarget)
    ensures DealTargetFromMap(DealTargetToMap(Some(t))) == RereadTarget(t)
  {
    var m := TargetDoc(t);
    TargetFields(DataDoc(t.brief), DataDoc(t.post), if t.window.None? then None else Some(WindowDoc(t.window.value)),
                 t.story, t.repost);
    DataIsRead(m, "brief_data", t.brief);
    DataIsRead(m, "post_data", t.post);
    WindowIsRead(m, "preferable_datetime", t.window);
  }

  // ---------- The documents, key by key ----------

  // One picture as written; only has_spoiler is left out when false.
  predicate WrittenItem(j: Json, i: MediaItem) {
    && j.Obj?
    && j.fields.Keys == {"file_id", "msg_id", "type", "caption_above"} + (if i.hasSpoiler then {"has_spoiler"} else {})
    && j.fields["file_id"] == Str(i.fileId)
    && j.fields["msg_id"] == Num(Stored(i.msgId) as real)
    && j.fields["type"] == Str(i.kind)
    && j.fields["caption_above"] == Bool(i.captionAbove)
    && (i.hasSpoiler ==> j.fields["has_spoiler"] == Bool(true))
  }

  // Message data as written: seven keys at most, each absent when its field is empty.
  ghost predicate WrittenData(j: Json, d: MsgData) {
    && j.Obj?
    && j.fields.Keys <= {"message_text", "message_entities", "message_images", "message_caption_above",
                         "message_album_id", "message_preview_ids", "message_deal_id"}
    && HasData(j.fields, d) && WrittenImages(j.fields, Items(d.images))
  }

  ghost predicate WrittenImages(m: Doc, images: seq<MediaItem>) {
    if images == [] then "message_images" !in m
    else
      && "message_images" in m && m["message_images"].Arr?
      && |m["message_images"].items| == |images|
      && forall k | 0 <= k < |images| :: WrittenItem(m["message_images"].items[k], images[k])
  }

  predicate WrittenWindow(j: Json, p: PreferableDatetime) {
    && j.Obj?
    && j.fields.Keys <= {"date_from", "date_to", "time_from", "time_to"}
    && Has(j.fields, p.dateFrom == "", "date_from", Str(p.dateFrom))
    && Has(j.fields, p.dateTo == "", "date_to", Str(p.dateTo))
    && Has(j.fields, p.timeFrom == "", "time_from", Str(p.timeFrom))
    && Has(j.fields, p.timeTo == "", "time_to", Str(p.timeTo))
  }

  ghost predicate WrittenTarget(m: Doc, t: DealTarget) {
    && m.Keys <= {"brief_data", "post_data", "preferable_datetime", "story_data", "repost_data"}
    && "brief_data" in m && WrittenData(m["brief_data"], t.brief)
    && "post_data" in m && WrittenData(m["post_data"], t.post)
    && (if t.window.None? then "preferable_datetime" !in m
        else "preferable_datetime" in m && WrittenWindow(m["preferable_datetime"], t.window.value))
    && (if EmptyDoc(t.story) then "story_data" !in m
        else "story_data" in m && m["story_data"] == Obj(t.story.value))
    && if EmptyDoc(t.repost) then "repost_data" !in m
       else "repost_data" in m && m["repost_data"] == Obj(t.repost.value)
  }

  lemma ItemIsWritten(i: MediaItem)
    ensures WrittenItem(Obj(ItemDoc(i)), i)
  {
  }

  lemma ImagesAreWritten(m: Doc, images: seq<MediaItem>)
    requires Has(m, images == [], "message_images", Arr(ItemDocs(images)))
    ensures WrittenImages(m, images)
  {
    forall k | 0 <= k < |images| ensures WrittenItem(ItemDocs(images)[k], images[k]) { ItemIsWritten(images[k]); }
  }

  lemma HeadKeys(d: MsgData)
    ensures DataHead(d).Keys <= {"message_text", "message_entities", "message_images", "message_caption_above"}
  {
  }

  // The document of message data on its own, which is what a state holds.
  lemma DataIsWritten(d: MsgData)
    ensures MsgDataToMap(Some(d)).Some? && WrittenData(Obj(MsgDataToMap(Some(d)).value), d)
  {
    DataFields(d);
    ImagesAreWritten(DataDoc(d), Items(d.images));
    HeadKeys(d);
  }

  lemma WindowIsWritten(p: PreferableDatetime)
    ensures WrittenWindow(Obj(WindowDoc(p)), p)
  {
  }

  lemma TargetKeys(brief: Doc, post: Doc, window: Option<Doc>, story: Option<Doc>, repost: Option<Doc>)
    ensures var m := TargetOf(brief, post, window, story, repost);
      && m.Keys <= {"brief_data", "post_data", "preferable_datetime", "story_data", "repost_data"}
      && Has(m, false, "brief_data", Obj(brief)) && Has(m, false, "post_data", Obj(post))
      && Has(m, window.None?, "preferable_datetime", if window.None? then Null else Obj(window.value))
      && Has(m, EmptyDoc(story), "story_data", if story.None? then Null else Obj(story.value))
      && Has(m, EmptyDoc(repost), "repost_data", if repost.None? then Null else Obj(repost.value))
  {
  }

  // The document of a target holds its fields under these keys, and nothing else.
  lemma TargetIsWritten(t: DealTarget)
    ensures DealTargetToMap(Some(t)).Some? && WrittenTarget(DealTargetToMap(Some(t)).value, t)
  {
    DataIsWritten(t.brief);
    DataIsWritten(t.post);
    var window := if t.window.None? then None else Some(WindowDoc(t.window.value));
    if t.window.Some? { WindowIsWritten(t.window.value); }
    TargetIsWrittenOf(t, DataDoc(t.brief), DataDoc(t.post), window);
  }

  lemma TargetIsWrittenOf(t: DealTarget, brief: Doc, post: Doc, window: Option<Doc>)
    requires WrittenData(Obj(brief), t.brief) && WrittenData(Obj(post), t.post)
    requires if t.window.None? then window.None? else window.Some? && WrittenWindow(Obj(window.value), t.window.value)
    ensures WrittenTarget(TargetOf(brief, post, window, t.story, t.repost), t)
  {
    TargetKeys(brief, post, window, t.story, t.repost);
  }

  // ---------- Reading any document, key by key ----------

  // What is read under a key: a value of the right type, or the zero value for a missing or null one.
  predicate TextAt(m: Doc, key: string, s: string) {
    if key !in m || m[key] == Null then s == "" else m[key] == Str(s)
  }

  predicate FlagAt(m: Doc, key: string, b: bool) {
    if key !in m || m[key] == Null then !b else m[key] == Bool(b)
  }

  predicate NumberAt(m: Doc, key: string, n: int) {
    if key !in m || m[key] == Null then n == 0
    else m[key].Num? && m[key].n.Floor as real == m[key].n && ReadBack(m[key].n.Floor) == Some(n)
  }

  predicate ListAt(m: Doc, key: string, l: Option<seq<Json>>) {
    if key !in m || m[key] == Null then l.None? else l.Some? && m[key] == Arr(l.value)
  }

  predicate DocAt(m: Doc, key: string, d: Option<Doc>) {
    if key !in m || m[key] == Null then d.None? else d.Some? && m[key] == Obj(d.value)
  }

  predicate ItemIs(j: Json, i: MediaItem) {
    if j == Null then i == MediaItem("", 0, "", false, false)
    else
      && j.Obj?
      && TextAt(j.fields, "file_id", i.fileId)
      && NumberAt(j.fields, "msg_id", i.msgId)
      && TextAt(j.fields, "type", i.kind)
      && FlagAt(j.fields, "caption_above", i.captionAbove)
      && FlagAt(j.fields, "has_spoiler", i.hasSpoiler)
  }

  ghost predicate ImagesAt(m: Doc, images: Option<seq<MediaItem>>) {
    if "message_images" !in m || m["message_images"] == Null then images.None?
    else m["message_images"].Arr? && images.Some? && ItemsAre(m["message_images"].items, images.value)
  }

  ghost predicate ItemsAre(l: seq<Json>, images: seq<MediaItem>) {
    |l| == |images| && forall k | 0 <= k < |l| :: ItemIs(l[k], images[k])
  }

  ghost predicate FieldsAre(m: Doc, d: MsgData) {
    && TextAt(m, "message_text", d.text)
    && ListAt(m, "message_entities", d.entities)
    && ImagesAt(m, d.images)
    && FlagAt(m, "message_caption_above", d.captionAbove)
    && TextAt(m, "message_album_id", d.albumId)
    && ListAt(m, "message_preview_ids", d.previewIds)
    && TextAt(m, "message_deal_id", d.dealId)
  }

  ghost predicate DataAt(m: Doc, key: string, d: MsgData) {
    if key !in m || m[key] == Null then d == MsgData("", None, None, false, "", None, "")
    else m[key].Obj? && FieldsAre(m[key].fields, d)
  }

  predicate WindowAt(m: Doc, key: string, w: Option<PreferableDatetime>) {
    if key !in m || m[key] == Null then w.None?
    else
      && m[key].Obj? && w.Some?
      && TextAt(m[key].fields, "date_from", w.value.dateFrom)
      && TextAt(m[key].fields, "date_to", w.value.dateTo)
      && TextAt(m[key].fields, "time_from", w.value.timeFrom)
      && TextAt(m[key].fields, "time_to", w.value.timeTo)
  }

  lemma ItemReadExactly(j: Json, i: MediaItem)
    ensures ItemOf(j) == Some(i) <==> ItemIs(j, i)
  {
  }

  lemma {:induction false} ItemsReadExactly(l: seq<Json>, images: seq<MediaItem>)
    ensures ItemsOf(l) == Some(images) <==> ItemsAre(l, images)
  {
    if l != [] {
      if images == [] {
      } else {
        ItemReadExactly(l[0], images[0]);
        ItemsReadExactly(l[1..], images[1..]);
        assert images == [images[0]] + images[1..];
        Tails(l, images);
        var first, rest := ItemOf(l[0]), ItemsOf(l[1..]);
        if ItemsOf(l) == Some(images) { assert ([first.value] + rest.value)[1..] == rest.value; }
      }
    }
  }

  lemma Tails(l: seq<Json>, images: seq<MediaItem>)
    requires l != [] && images != []
    ensures ItemsAre(l, images) <==> ItemIs(l[0], images[0]) && ItemsAre(l[1..], images[1..])
  {
    if ItemIs(l[0], images[0]) && ItemsAre(l[1..], images[1..]) {
      forall k | 0 <= k < |l| ensures ItemIs(l[k], images[k]) {
        if k > 0 { assert l[k] == l[1..][k - 1] && images[k] == images[1..][k - 1]; }
      }
    }
  }

  lemma ImagesReadExactly(m: Doc, images: Option<seq<MediaItem>>)
    ensures ReadItems(m, "message_images") == Some(images) <==> ImagesAt(m, images)
  {
    var l := ReadList(m, "message_images");
    if l.Some? && l.value.Some? && images.Some? { ItemsReadExactly(l.value.value, images.value); }
  }

  lemma FieldsReadExactly(m: Doc, d: MsgData)
    ensures MsgDataFromMap(Some(m)) == Some(d) <==> FieldsAre(m, d)
  {
    ImagesReadExactly(m, d.images);
  }

  lemma DataReadExactly(m: Doc, key: string, d: MsgData)
    ensures ReadData(m, key) == Some(d) <==> DataAt(m, key, d)
  {
    if key in m && m[key].Obj? { FieldsReadExactly(m[key].fields, d); }
  }

  // Any document, written by this program or not, is read as t exactly when t is what its keys say.
  lemma TargetReadExactly(m: Doc, t: DealTarget)
    ensures DealTargetFromMap(Some(m)) == Some(t) <==>
      && DataAt(m, "brief_data", t.brief) && DataAt(m, "post_data", t.post)
      && WindowAt(m, "preferable_datetime", t.window)
      && DocAt(m, "story_data", t.story) && DocAt(m, "repost_data", t.repost)
  {
    DataReadExactly(m, "brief_data", t.brief);
    DataReadExactly(m, "post_data", t.post);
  }

  // ---------- The round trip ----------

  ghost predicate ItemIdsSurvive(l: seq<MediaItem>) {
    forall i | i in l :: Survives(i.msgId)
  }

  ghost predicate IdsSurvive(t: DealTarget) {
    ItemIdsSurvive(Items(t.brief.images)) && ItemIdsSurvive(Items(t.post.images))
  }

  lemma {:induction false} ItemsComeBack(l: seq<MediaItem>)
    ensures RereadItems(l) == Some(l) <==> ItemIdsSurvive(l)
  {
    if l != [] {
      ItemsComeBack(l[1..]);
      assert l == [l[0]] + l[1..];
      var first, rest := Reread(l[0]), RereadItems(l[1..]);
      if RereadItems(l) == Some(l) {
        assert first.value == l[0];
        assert rest.value == l[1..] by { assert ([first.value] + rest.value)[1..] == rest.value; }
      }
    }
  }

  lemma RereadIsNormal(d: MsgData)
    ensures RereadData(d) == Some(NormalData(d)) <==> ItemIdsSurvive(Items(d.images))
  {
    var images := RereadItems(Items(d.images));
    ItemsComeBack(Items(d.images));
    if images.Some? {
      SameImages(NormalData(d), if EmptyList(d.images) then None else images);
    }
  }

  lemma SameImages(d: MsgData, images: Option<seq<MediaItem>>)
    ensures d.(images := images) == d <==> images == d.images
  {
  }

  // Message data comes back, with empty lists made nil, exactly when every message id survives.
  lemma DataComesBack(d: MsgData)
    ensures MsgDataFromMap(MsgDataToMap(Some(d))) == Some(NormalData(d)) <==> ItemIdsSurvive(Items(d.images))
  {
    DataIsReread(d);
    RereadIsNormal(d);
  }

  // A target comes back, with empty lists and maps made nil, exactly when every message id survives.
  lemma TargetComesBack(t: DealTarget)
    ensures DealTargetFromMap(DealTargetToMap(Some(t))) == Some(NormalTarget(t)) <==> IdsSurvive(t)
  {
    TargetIsReread(t);
    RereadIsNormal(t.brief);
    RereadIsNormal(t.post);
  }

  ghost predicate SafeIds(l: seq<MediaItem>) {
    forall i | i in l :: Abs(i.msgId) <= 9_007_199_254_740_992
  }

  // In particular when no id is beyond 2^53.
  lemma SafeTargetComesBack(t: DealTarget)
    requires SafeIds(Items(t.brief.images)) && SafeIds(Items(t.post.images))
    ensures DealTargetFromMap(DealTargetToMap(Some(t))) == Some(NormalTarget(t))
  {
    forall i | i in Items(t.brief.images) || i in Items(t.post.images) ensures Survives(i.msgId) {
      SafeIntegersSurvive(i.msgId);
    }
    TargetComesBack(t);
  }

  // One past 2^53 is lost.
  lemma UnsafeIdIsLost(t: DealTarget, i: MediaItem)
    requires i in Items(t.brief.images) && i.msgId == 9_007_199_254_740_993
    ensures DealTargetFromMap(DealTargetToMap(Some(t))) != Some(NormalTarget(t))
  {
    FirstLost(i.msgId);
    TargetComesBack(t);
  }

  lemma NilTargetComesBackZero()
    ensures DealTargetFromMap(DealTargetToMap(None)) == Some(ZERO_TARGET)
    ensures DealTargetFromMap(DealTargetToMap(Some(ZERO_TARGET))) == Some(ZERO_TARGET)
  {
    SafeTargetComesBack(ZERO_TARGET);
  }

  // ---------- The second trip ----------

  lemma RereadKeepsDoc(i: MediaItem)
    requires Reread(i).Some?
    ensures ItemDoc(Reread(i).value) == ItemDoc(i) && Survives(Reread(i).value.msgId)
  {
    ReadBackIsStable(i.msgId);
  }

  lemma {:induction false} RereadItemsKeepDocs(l: seq<MediaItem>)
    requires RereadItems(l).Some?
    ensures var r := RereadItems(l).value;
      |r| == |l| && ItemIdsSurvive(r) && forall k | 0 <= k < |l| :: ItemDoc(r[k]) == ItemDoc(l[k])
  {
    if l != [] {
      RereadKeepsDoc(l[0]);
      RereadItemsKeepDocs(l[1..]);
      var first, rest := Reread(l[0]).value, RereadItems(l[1..]).value;
      assert RereadItems(l).value == [first] + rest;
      assert forall k | 0 < k < |l| :: ([first] + rest)[k] == rest[k - 1] && l[k] == l[1..][k - 1];
    }
  }

  lemma RereadDataKeepsDoc(d: MsgData)
    requires RereadData(d).Some?
    ensures var u := RereadData(d).value;
      DataDoc(u) == DataDoc(d) && NormalData(u) == u && ItemIdsSurvive(Items(u.images))
  {
    RereadItemsKeepDocs(Items(d.images));
    var u := RereadData(d).value;
    assert ItemDocs(Items(u.images)) == ItemDocs(Items(d.images));
  }

  // Whatever the first trip gives, lossy ids included, is written as the same document and read back unchanged.
  lemma SecondTripIsIdentity(t: DealTarget)
    ensures var u := DealTargetFromMap(DealTargetToMap(Some(t)));
      u.Some? ==> DealTargetToMap(u) == DealTargetToMap(Some(t)) && DealTargetFromMap(DealTargetToMap(u)) == u
  {
    TargetIsReread(t);
    if RereadTarget(t).Some? {
      RereadDataKeepsDoc(t.brief);
      RereadDataKeepsDoc(t.post);
      TargetComesBack(RereadTarget(t).value);
    }
  }
}
