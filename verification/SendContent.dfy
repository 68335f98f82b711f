/** How one send is split into messages, and which of them the conversation shows as its last. */
module SendContent {
  import opened Wrappers

  datatype MediaKind = IMAGE_FILE | VIDEO_FILE | AUDIO_FILE | OTHER_FILE

  datatype Media = Media(url: string, kind: MediaKind)

  datatype MessageType = TEXT | LINK | IMAGE | VIDEO | VOICE | FILE

  datatype Part = Part(kind: MessageType, text: Option<string>, media: seq<Media>)

  function TypeOfOne(m: Media): MessageType {
    match m.kind
    case IMAGE_FILE => IMAGE
    case VIDEO_FILE => VIDEO
    case AUDIO_FILE => VOICE
    case OTHER_FILE => FILE
  }

  predicate HasKind(media: seq<Media>, kind: MediaKind) {
    exists m :: m in media && m.kind == kind
  }

  function TypeOfAll(media: seq<Media>): MessageType {
    if HasKind(media, IMAGE_FILE) then IMAGE
    else if HasKind(media, VIDEO_FILE) then VIDEO
    else if HasKind(media, AUDIO_FILE) then VOICE
    else FILE
  }

  predicate HasText(text: Option<string>) {
    text.Some? && text.value != ""
  }

  /** One message per attachment; the text goes along unless it has a link. */
  function PerAttachment(text: Option<string>, hasLinks: bool, media: seq<Media>): seq<Part> {
    seq(|media|, i requires 0 <= i < |media| =>
      Part(TypeOfOne(media[i]), if HasText(text) && !hasLinks then text else None, [media[i]]))
  }

  function Split(text: Option<string>, hasLinks: bool, media: seq<Media>): (parts: seq<Part>)
    ensures parts != []
  {
    if |media| > 1 then PerAttachment(text, hasLinks, media) + if hasLinks then [Part(LINK, text, [])] else []
    else if media != [] && hasLinks then [Part(TypeOfAll(media), None, media), Part(LINK, text, [])]
    else if media != [] then [Part(TypeOfAll(media), text, media)]
    else [Part(if hasLinks then LINK else TEXT, text, [])]
  }

  /** A message of one attachment is of that attachment's type, and one of several of the first type in this order. */
  lemma TypesMean(media: seq<Media>)
    requires media != []
    ensures var kind := TypeOfAll(media);
      (kind == IMAGE <==> exists m :: m in media && m.kind == IMAGE_FILE) &&
      (kind == VIDEO <==> (exists m :: m in media && m.kind == VIDEO_FILE) && forall m :: m in media ==> m.kind != IMAGE_FILE) &&
      (kind == FILE <==> forall m :: m in media ==> m.kind == OTHER_FILE) &&
      (kind == IMAGE || kind == VIDEO || kind == VOICE || kind == FILE)
    ensures |media| == 1 ==> TypeOfAll(media) == TypeOfOne(media[0])
    ensures TypeOfOne(media[0]) ==
      match media[0].kind { case IMAGE_FILE => IMAGE case VIDEO_FILE => VIDEO case AUDIO_FILE => VOICE case OTHER_FILE => FILE }
  {}

  /** `linksIn` says whether the text contains a link. */
  method SplitContent(text: Option<string>, linksIn: bool, media: seq<Media>) returns (parts: seq<Part>)
    ensures parts == Split(text, HasText(text) && linksIn, media)
  {
    var hasText := text.Some? && text.value != "";
    var hasLinks := hasText && linksIn;
    if |media| > 1 {
      parts := [];
      for i := 0 to |media|
        invariant parts == PerAttachment(text, hasLinks, media)[..i]
      {
        parts := parts + [Part(TypeOfOne(media[i]), if hasText && !hasLinks then text else None, [media[i]])];
      }
      if hasLinks { parts := parts + [Part(LINK, text, [])]; }
    } else if hasText && |media| > 0 && hasLinks {
      parts := [Part(TypeOfAll(media), None, media)];
      parts := parts + [Part(LINK, text, [])];
    } else if |media| > 0 {
      parts := [Part(TypeOfAll(media), text, media)];
    } else {
      parts := [Part(if hasLinks then LINK else TEXT, text, [])];
    }
  }

  // ---------- What a split keeps ----------

  function AllMedia(parts: seq<Part>): seq<Media> {
    if parts == [] then [] else parts[0].media + AllMedia(parts[1..])
  }

  lemma {:induction false} AllMediaAppend(parts: seq<Part>, p: Part)
    ensures AllMedia(parts + [p]) == AllMedia(parts) + p.media
  {
    if parts == [] {
      assert [p][1..] == [];
    } else {
      AllMediaAppend(parts[1..], p);
      assert (parts + [p])[1..] == parts[1..] + [p];
    }
  }

  lemma {:induction false} PerAttachmentCarriesMedia(text: Option<string>, hasLinks: bool, media: seq<Media>, n: nat)
    requires n <= |media|
    ensures AllMedia(PerAttachment(text, hasLinks, media)[..n]) == media[..n]
  {
    var parts := PerAttachment(text, hasLinks, media);
    if n > 0 {
      PerAttachmentCarriesMedia(text, hasLinks, media, n - 1);
      AllMediaAppend(parts[..n - 1], parts[n - 1]);
      assert parts[..n] == parts[..n - 1] + [parts[n - 1]];
      assert media[..n] == media[..n - 1] + [media[n - 1]];
    }
  }

  /** Every attachment is sent exactly once and in order. */
  lemma SplitCarriesMedia(text: Option<string>, hasLinks: bool, media: seq<Media>)
    ensures AllMedia(Split(text, hasLinks, media)) == media
  {
    if |media| > 1 {
      var parts := PerAttachment(text, hasLinks, media);
      PerAttachmentCarriesMedia(text, hasLinks, media, |media|);
      assert parts[..|media|] == parts && media[..|media|] == media;
      AllMediaAppend(parts, Part(LINK, text, []));
      assert Split(text, hasLinks, media) == if hasLinks then parts + [Part(LINK, text, [])] else parts;
    } else {
      var parts := Split(text, hasLinks, media);
      AllMediaAppend([], parts[0]);
      assert parts == (if |parts| == 2 then [parts[0]] + [parts[1]] else [] + [parts[0]]);
      if |parts| == 2 { AllMediaAppend([parts[0]], parts[1]); }
    }
  }

  ghost predicate IsOnlyText(parts: seq<Part>, text: Option<string>, i: nat) {
    i < |parts| && parts[i].text == text && forall j :: 0 <= j < |parts| && j != i ==> !HasText(parts[j].text)
  }

  /** A text is sent exactly once, unless several attachments go out and it has no link: then each carries it. */
  lemma SplitCarriesText(text: Option<string>, hasLinks: bool, media: seq<Media>)
    requires HasText(text)
    ensures var parts := Split(text, hasLinks, media);
      if |media| > 1 && !hasLinks then forall i :: 0 <= i < |parts| ==> parts[i].text == text
      else IsOnlyText(parts, text, |parts| - 1)
  {}

  /** The first message of one of the kinds. */
  function FirstOfKind(parts: seq<Part>, kinds: set<MessageType>): (r: Option<nat>)
    ensures r.Some? ==> r.value < |parts| && parts[r.value].kind in kinds
    ensures r.None? ==> forall i :: 0 <= i < |parts| ==> parts[i].kind !in kinds
  {
    if parts == [] then None
    else if parts[0].kind in kinds then Some(0)
    else match FirstOfKind(parts[1..], kinds) case Some(i) => Some(i + 1) case None => None
  }

  function Primary(parts: seq<Part>): Part
    requires parts != []
  {
    match FirstOfKind(parts, {TEXT, LINK})
    case Some(i) => parts[i]
    case None => match FirstOfKind(parts, {IMAGE}) case Some(i) => parts[i] case None => parts[0]
  }

  /** Whatever the split, the message shown as the conversation's last one carries the text if there is any. */
  lemma PrimaryCarriesText(text: Option<string>, hasLinks: bool, media: seq<Media>)
    requires HasText(text)
    ensures Primary(Split(text, hasLinks, media)).text == text
  {
    hide FirstOfKind;
    var parts := Split(text, hasLinks, media);
    SplitCarriesText(text, hasLinks, media);
    var last := parts[|parts| - 1];
    assert |media| <= 1 || hasLinks ==> last.text == text;
    assert hasLinks ==> last.kind == LINK;
    assert forall i :: 0 <= i < |parts| - 1 ==> parts[i].kind != TEXT && parts[i].kind != LINK;
  }

  /** One message goes out for a text alone and for one attachment without a link in the text, and only then. */
  lemma SplitIsOneIff(text: Option<string>, hasLinks: bool, media: seq<Media>)
    ensures |Split(text, hasLinks, media)| == 1 <==> media == [] || (|media| == 1 && !hasLinks)
  {}

  /** A message with attachments is of their type, and one without is a link or plain text; both carry the text as it was given. */
  lemma PartsMean(text: Option<string>, hasLinks: bool, media: seq<Media>, i: nat)
    requires i < |Split(text, hasLinks, media)|
    ensures var part := Split(text, hasLinks, media)[i];
      (part.media == [] ==> part == Part(if hasLinks then LINK else TEXT, text, [])) &&
      (part.media != [] ==> part.kind == TypeOfAll(part.media) && (HasText(part.text) ==> part.text == text && !hasLinks)) &&
      (part.media == [] <==> media == [] || (hasLinks && i == |Split(text, hasLinks, media)| - 1))
    ensures |media| == 1 && !hasLinks ==> Split(text, hasLinks, media) == [Part(TypeOfAll(media), text, media)]
    ensures HasText(text) <==> exists t :: text == Some(t) && |t| > 0
  {
    if i < |media| { TypesMean([media[i]]); }
  }

  /** The message shown as the last is the first text or link, else the first image, else the first of all. */
  lemma PrimaryMeans(parts: seq<Part>)
    requires parts != []
    ensures Primary(parts) in parts
    ensures (exists p :: p in parts && (p.kind == TEXT || p.kind == LINK)) <==> Primary(parts).kind == TEXT || Primary(parts).kind == LINK
    ensures (forall p :: p in parts ==> p.kind != TEXT && p.kind != LINK) ==>
      if exists p :: p in parts && p.kind == IMAGE then Primary(parts).kind == IMAGE else Primary(parts) == parts[0]
  {}
}
