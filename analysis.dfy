// The userbot's decision rules over what it reads from a group: the
// imported/forwarded-message classifier, the geo flag, and the choice of
// the oldest fetched message. Telegram fetches become inputs: a fetch
// that raises is `None`.

module Analysis {
  import opened Wrappers
  import opened Json
  import opened Text

  /** The forward header of a message, reduced to the two flags the classifier reads. */
  datatype Forward = Forward(imported: bool, savedFromPeer: bool)

  /** A fetched message: its date (absent when the record has none) and its forward header. */
  datatype Message = Message(date: Option<int>, forward: Option<Forward>)

  // ----- imported / forwarded messages -----

  predicate IsImported(m: Message) {
    m.forward.Some? && m.forward.value.imported
  }

  predicate IsSaved(m: Message) {
    m.forward.Some? && m.forward.value.savedFromPeer
  }

  /** Number of messages carrying the `imported` flag (reference definition, by prefix). */
  function ImportedCount(ms: seq<Message>): nat {
    if ms == [] then 0
    else ImportedCount(ms[..|ms| - 1]) + (if IsImported(ms[|ms| - 1]) then 1 else 0)
  }

  /** Number of messages forwarded with a `saved_from_peer` origin. */
  function SavedCount(ms: seq<Message>): nat {
    if ms == [] then 0
    else SavedCount(ms[..|ms| - 1]) + (if IsSaved(ms[|ms| - 1]) then 1 else 0)
  }

  /** The counts in a report never exceed the number of messages analysed. */
  lemma {:induction false} CountsBounded(ms: seq<Message>)
    ensures ImportedCount(ms) <= |ms| && SavedCount(ms) <= |ms|
  {
    if ms != [] {
      CountsBounded(ms[..|ms| - 1]);
    }
  }

  /** The imported count is positive exactly when some message has the flag. */
  lemma {:induction false} ImportedCountPositive(ms: seq<Message>)
    ensures ImportedCount(ms) > 0 <==> exists i :: 0 <= i < |ms| && IsImported(ms[i])
  {
    if ms != [] {
      var init := ms[..|ms| - 1];
      ImportedCountPositive(init);
      if exists i :: 0 <= i < |init| && IsImported(init[i]) {
        var i :| 0 <= i < |init| && IsImported(init[i]);
        assert ms[i] == init[i];
      }
      if exists i :: 0 <= i < |ms| && IsImported(ms[i]) {
        var i :| 0 <= i < |ms| && IsImported(ms[i]);
        if i < |init| { assert init[i] == ms[i]; }
      }
    }
  }

  /** The overall classification written as `imported_status`. */
  datatype ImportStatus = Critical | Warning | Normal | CheckError

  function StatusText(st: ImportStatus): (t: string)
    ensures st.Critical? <==> t == "critical"
    ensures st.Warning? <==> t == "warning"
    ensures st.Normal? <==> t == "normal"
    ensures st.CheckError? <==> t == "error"
  {
    match st
    case Critical => "critical"
    case Warning => "warning"
    case Normal => "normal"
    case CheckError => "error"
  }

  /** One entry of `imported_signs` (the texts themselves are not modelled). */
  datatype Sign =
    | ImportedSign                       // one per message with the `imported` flag
    | ManyForwarded(saved: nat, total: nat)      // share above 40%
    | ModerateForwarded(saved: nat, total: nat)  // share above 20%, at most 40%
    | FewForwarded(saved: nat)                   // share at most 20%
    | FetchFailed                        // the fetch raised

  datatype Counts = Counts(saved: nat, flagged: nat, total: nat)

  datatype ImportReport = ImportReport(
    hasImported: bool, hasWarning: bool, status: ImportStatus,
    signs: seq<Sign>, counts: Option<Counts>)

  function Repeat<T>(x: T, n: nat): (r: seq<T>)
    ensures |r| == n && forall i :: 0 <= i < n ==> r[i] == x
  {
    if n == 0 then [] else Repeat(x, n - 1) + [x]
  }

  /** The share sign appended after the loop, if any: integer form of `saved / total * 100 > 40` and `> 20`. */
  function ShareSigns(saved: nat, total: nat): seq<Sign> {
    if saved == 0 then []
    else if saved * 100 > 40 * total then [ManyForwarded(saved, total)]
    else if saved * 100 > 20 * total then [ModerateForwarded(saved, total)]
    else [FewForwarded(saved)]
  }

  /** The forwarded share exceeds 20% (a forwarded message is needed for the share to be computed). */
  predicate SharedTooMuch(saved: nat, total: nat) {
    saved > 0 && saved * 100 > 20 * total
  }

  /**
   * Classifies up to a hundred fetched messages. `fetched` is `None`
   * when fetching raised, and the error dict is returned.
   */
  method CheckImportedMessages(fetched: Option<seq<Message>>) returns (r: ImportReport)
    ensures fetched.None? ==> r == ImportReport(false, false, CheckError, [FetchFailed], None)
    ensures fetched.Some? ==>
      var ms := fetched.value;
      && r.counts == Some(Counts(SavedCount(ms), ImportedCount(ms), |ms|))
      && (r.hasImported <==> exists i :: 0 <= i < |ms| && IsImported(ms[i]))
      && (r.hasWarning <==> SharedTooMuch(SavedCount(ms), |ms|))
      && (r.status == Critical <==> r.hasImported)
      && (r.status == Warning <==> !r.hasImported && r.hasWarning)
      && (r.status == Normal <==> !r.hasImported && !r.hasWarning)
      && r.signs == Repeat(ImportedSign, ImportedCount(ms)) + ShareSigns(SavedCount(ms), |ms|)
  {
    if fetched.None? {
      return ImportReport(false, false, CheckError, [FetchFailed], None);
    }
    var ms := fetched.value;
    var found := false;
    var warning := false;
    var signs: seq<Sign> := [];
    var saved := 0;
    var flagged := 0;
    var total := |ms|;
    var i := 0;
    while i < |ms|
      invariant 0 <= i <= |ms|
      invariant saved == SavedCount(ms[..i]) && flagged == ImportedCount(ms[..i])
      invariant found <==> flagged > 0
      invariant signs == Repeat(ImportedSign, flagged)
    {
      var m := ms[i];
      assert ms[..i + 1][..i] == ms[..i];
      if m.forward.Some? {
        if m.forward.value.imported {
          flagged := flagged + 1;
          found := true;
          signs := signs + [ImportedSign];
        }
        if m.forward.value.savedFromPeer {
          saved := saved + 1;
        }
      }
      i := i + 1;
    }
    assert ms[..i] == ms;
    ImportedCountPositive(ms);
    if saved > 0 {
      if saved * 100 > 40 * total {
        warning := true;
        signs := signs + [ManyForwarded(saved, total)];
      } else if saved * 100 > 20 * total {
        warning := true;
        signs := signs + [ModerateForwarded(saved, total)];
      } else {
        signs := signs + [FewForwarded(saved)];
      }
    }
    var status := if found then Critical else if warning then Warning else Normal;
    r := ImportReport(found, warning, status, signs, Some(Counts(saved, flagged, total)));
  }

  /**
   * The entries the report contributes to the analysis payload, which
   * `analyze_group` merges into its result dict with `update`. The sign
   * texts are not modelled, so `imported_signs` is not among them.
   */
  function ImportFields(r: ImportReport): (f: Fields)
    ensures "imported_status" in f && f["imported_status"] == JStr(StatusText(r.status))
    ensures "has_imported_messages" in f && f["has_imported_messages"] == JBool(r.hasImported)
    ensures "has_imported_warning" in f && f["has_imported_warning"] == JBool(r.hasWarning)
    ensures r.counts.Some? ==>
              && "saved_from_peer_count" in f && f["saved_from_peer_count"] == JInt(r.counts.value.saved)
              && "imported_flag_count" in f && f["imported_flag_count"] == JInt(r.counts.value.flagged)
              && "total_messages_analyzed" in f && f["total_messages_analyzed"] == JInt(r.counts.value.total)
    ensures r.counts.None? ==>
              "saved_from_peer_count" !in f && "imported_flag_count" !in f && "total_messages_analyzed" !in f
    ensures |f.Keys| == if r.counts.Some? then 6 else 3
  {
    var flags := map["has_imported_messages" := JBool(r.hasImported), "has_imported_warning" := JBool(r.hasWarning),
                     "imported_status" := JStr(StatusText(r.status))];
    match r.counts
    case None => flags
    case Some(c) =>
      flags["saved_from_peer_count" := JInt(c.saved)]["imported_flag_count" := JInt(c.flagged)]
           ["total_messages_analyzed" := JInt(c.total)]
  }

  // ----- geo flag -----

  /** The three attributes of the full chat the rule reads (a location, a linked chat, an address). */
  datatype FullChat = FullChat(hasLocation: bool, linkedChat: bool, address: string)

  datatype GeoReason = Located | LinkedChat | Address(address: string) | TitleKeywords(found: seq<string>) | GeoCheckFailed

  datatype GeoReport = GeoReport(isGeo: bool, reasons: seq<GeoReason>)

  const USERBOT_GEO_KEYWORDS: seq<string> := ["город", "city", "москва", "спб", "киев", "moscow", "kiev"]

  function KeywordReason(title: string): seq<GeoReason> {
    var found := KeywordsIn(USERBOT_GEO_KEYWORDS, Lower(title));
    if found != [] then [TitleKeywords(found)] else []
  }

  /**
   * The geo check on a group. `full` is `None` when fetching the full
   * chat raised; the error becomes a reason and the flag stays false.
   */
  function CheckGeoGroup(full: Option<FullChat>, title: string): (r: GeoReport)
    ensures r.isGeo <==> full.Some? && (full.value.hasLocation || full.value.address != "")
    ensures full.None? ==> r.reasons == [GeoCheckFailed]
  {
    match full
    case None => GeoReport(false, [GeoCheckFailed])
    case Some(c) =>
      var located := if c.hasLocation then [Located] else [];
      var linked := if c.linkedChat then [LinkedChat] else [];
      var address := if c.address != "" then [Address(c.address)] else [];
      GeoReport(c.hasLocation || c.address != "", located + linked + address + KeywordReason(title))
  }

  /** The reasons of a fetched chat: the attribute reasons in a fixed order, then the title keywords. */
  lemma GeoReasonsSplit(c: FullChat, title: string)
    ensures var r := CheckGeoGroup(Some(c), title);
      var attrs := (if c.hasLocation then [Located] else []) + (if c.linkedChat then [LinkedChat] else [])
                   + (if c.address != "" then [Address(c.address)] else []);
      && r.reasons == attrs + KeywordReason(title)
      && (forall g :: g in r.reasons <==> g in attrs || g in KeywordReason(title))
      && (forall g :: g in KeywordReason(title) ==> g.TitleKeywords?)
  {
  }

  lemma LocatedReason(c: FullChat, title: string)
    ensures Located in CheckGeoGroup(Some(c), title).reasons <==> c.hasLocation
  {
    GeoReasonsSplit(c, title);
  }

  lemma LinkedChatReason(c: FullChat, title: string)
    ensures LinkedChat in CheckGeoGroup(Some(c), title).reasons <==> c.linkedChat
  {
    GeoReasonsSplit(c, title);
  }

  lemma AddressReason(c: FullChat, title: string)
    ensures Address(c.address) in CheckGeoGroup(Some(c), title).reasons <==> c.address != ""
  {
    GeoReasonsSplit(c, title);
  }

  /** Each reason is listed exactly when its attribute is present. */
  lemma GeoReasons(c: FullChat, title: string)
    ensures var r := CheckGeoGroup(Some(c), title);
      && (Located in r.reasons <==> c.hasLocation)
      && (LinkedChat in r.reasons <==> c.linkedChat)
      && (Address(c.address) in r.reasons <==> c.address != "")
      && GeoCheckFailed !in r.reasons
  {
    LocatedReason(c, title);
    LinkedChatReason(c, title);
    AddressReason(c, title);
    GeoReasonsSplit(c, title);
  }

  /** The keyword reason is present exactly when some of the seven keywords occur in the lower-cased title. */
  lemma GeoKeywordReason(c: FullChat, title: string, k: seq<string>)
    ensures TitleKeywords(k) in CheckGeoGroup(Some(c), title).reasons <==>
            k == KeywordsIn(USERBOT_GEO_KEYWORDS, Lower(title)) && k != []
  {
    var r := CheckGeoGroup(Some(c), title);
    var located := if c.hasLocation then [Located] else [];
    var linked := if c.linkedChat then [LinkedChat] else [];
    var address := if c.address != "" then [Address(c.address)] else [];
    var kws := KeywordReason(title);
    assert r.reasons == located + linked + address + kws;
    assert TitleKeywords(k) !in located + linked + address;
  }

  /** The title and the linked chat only add reasons: they never change the flag. */
  lemma GeoFlagIgnoresTitleAndLink(c: FullChat, d: FullChat, t1: string, t2: string)
    requires c.hasLocation == d.hasLocation && c.address == d.address
    ensures CheckGeoGroup(Some(c), t1).isGeo == CheckGeoGroup(Some(d), t2).isGeo
  {
  }

  // ----- oldest message -----

  predicate Dated(m: Message) { m.date.Some? }

  /**
   * The fallback loop that picks the oldest of the fetched messages. It
   * keeps the first message with the smallest date (later messages
   * must be strictly older to replace it); messages without a date are
   * passed over. `None` when no message has a date.
   */
  method OldestMessage(ms: seq<Message>) returns (oldest: Option<nat>)
    ensures oldest.None? <==> forall i :: 0 <= i < |ms| ==> !Dated(ms[i])
    ensures oldest.Some? ==>
      && oldest.value < |ms| && Dated(ms[oldest.value])
      && (forall i :: 0 <= i < |ms| && Dated(ms[i]) ==> ms[oldest.value].date.value <= ms[i].date.value)
      && (forall i :: 0 <= i < oldest.value && Dated(ms[i]) ==> ms[i].date.value > ms[oldest.value].date.value)
  {
    oldest := None;
    var i := 0;
    while i < |ms|
      invariant 0 <= i <= |ms|
      invariant oldest.None? <==> forall j :: 0 <= j < i ==> !Dated(ms[j])
      invariant oldest.Some? ==>
        && oldest.value < i && Dated(ms[oldest.value])
        && (forall j :: 0 <= j < i && Dated(ms[j]) ==> ms[oldest.value].date.value <= ms[j].date.value)
        && (forall j :: 0 <= j < oldest.value && Dated(ms[j]) ==> ms[j].date.value > ms[oldest.value].date.value)
    {
      var m := ms[i];
      if m.date.Some? {
        if oldest.None? || m.date.value < ms[oldest.value].date.value {
          oldest := Some(i);
        }
      }
      i := i + 1;
    }
  }
}
