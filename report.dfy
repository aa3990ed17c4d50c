/**
 * The escalation report of `notify_admin` (main.py): the caption text that
 * carries the requester's identity tag, the classification of each photo
 * reference, and the ordered messages the bot sends to the administrator.
 */
module Report {
  import opened Wrappers
  import opened Decimal

  /** The advisory request posted by the mini-app (the `Req` model). */
  datatype Request = Request(
    userId: int,
    product: string,
    problems: seq<string>,
    extraInfo: string,
    photos: seq<string>)

  /** What `send_photo` is handed: a temporary file holding base64-decoded bytes, or the reference itself. */
  datatype PhotoInput = Upload(base64: string) | Remote(reference: string)

  /** One outbound bot message: `send_message` or `send_photo` to a chat id. */
  datatype Message = Text(chat: int, text: string) | Photo(chat: int, photo: PhotoInput)

  /** The messages sent, in order, and the exception that stopped the sending, if any. */
  datatype Delivery = Delivery(sent: seq<Message>, error: Option<string>)

  const Header: string := "📥 گزارش جدید کاربر\n"
  const TagPrefix: string := "USER_ID:"
  const ProductLabel: string := "محصول: "
  const ProblemsLabel: string := "مشکلات: "
  const ExtraLabel: string := "توضیحات: "
  const ReasonLabel: string := "خطا/وضعیت API: "
  const ProblemSeparator: string := ", "
  const DataScheme: string := "data:"
  /** The text of the `ValueError` raised when `header, b64data = p.split(",", 1)` finds no comma. */
  const UnpackError: string := "not enough values to unpack (expected 2, got 1)"

  /** `sep.join(parts)`. */
  function Join(parts: seq<string>, sep: string): (r: string)
    ensures |r| == TotalLength(parts) + if parts == [] then 0 else |sep| * (|parts| - 1)
  {
    if |parts| == 0 then ""
    else if |parts| == 1 then parts[0]
    else parts[0] + sep + Join(parts[1..], sep)
  }

  function TotalLength(parts: seq<string>): nat {
    if parts == [] then 0 else |parts[0]| + TotalLength(parts[1..])
  }

  /** Joining two non-empty lists is joining each and putting one separator between: the order of the parts is kept. */
  lemma {:induction false} JoinConcat(a: seq<string>, b: seq<string>, sep: string)
    requires |a| >= 1 && |b| >= 1
    ensures Join(a + b, sep) == Join(a, sep) + sep + Join(b, sep)
    decreases |a|
  {
    if |a| > 1 {
      assert (a + b)[1..] == a[1..] + b;
      JoinConcat(a[1..], b, sep);
    } else {
      assert (a + b)[1..] == b;
    }
  }

  /** The second line of the caption: the correlation tag. */
  function TagLine(userId: int): string {
    TagPrefix + IntToStr(userId) + "\n"
  }

  /** The four lines after the tag: product, problems, extra information and the reason. */
  function Details(req: Request, reason: string): string {
    ProductLabel + req.product + "\n"
    + ProblemsLabel + Join(req.problems, ProblemSeparator) + "\n"
    + ExtraLabel + req.extraInfo + "\n"
    + ReasonLabel + reason
  }

  /** The caption `notify_admin` sends first. */
  function Caption(req: Request, reason: string): (c: string)
    ensures StartsWith(c, Header + TagPrefix)
    ensures EndsWith(c, ReasonLabel + reason)
  {
    var lead := Header + TagLine(req.userId);
    var body := Details(req, reason);
    var tail := ReasonLabel + reason;
    assert body == body[..|body| - |tail|] + tail;
    assert (lead + body)[..|Header| + |TagPrefix|] == lead[..|Header| + |TagPrefix|];
    assert (lead + body)[|lead + body| - |tail|..] == body[|body| - |tail|..];
    lead + body
  }

  /** The caption is six lines joined by newlines, the tag second, the reason last. */
  lemma CaptionLines(req: Request, reason: string)
    ensures Caption(req, reason) == Join([
      Header[..|Header| - 1],
      TagPrefix + IntToStr(req.userId),
      ProductLabel + req.product,
      ProblemsLabel + Join(req.problems, ProblemSeparator),
      ExtraLabel + req.extraInfo,
      ReasonLabel + reason], "\n")
  {
    var l1 := TagPrefix + IntToStr(req.userId);
    var l2, l3 := ProductLabel + req.product, ProblemsLabel + Join(req.problems, ProblemSeparator);
    var l4, l5 := ExtraLabel + req.extraInfo, ReasonLabel + reason;
    JoinSix(Header[..|Header| - 1], l1, l2, l3, l4, l5);
    assert Header == Header[..|Header| - 1] + "\n";
    assert TagLine(req.userId) == l1 + "\n";
    assert Details(req, reason) == l2 + "\n" + (l3 + "\n" + (l4 + "\n" + l5));
  }

  /** Joining six lines with newlines puts one newline between each two. */
  lemma JoinSix(l0: string, l1: string, l2: string, l3: string, l4: string, l5: string)
    ensures Join([l0, l1, l2, l3, l4, l5], "\n") ==
      l0 + "\n" + (l1 + "\n" + (l2 + "\n" + (l3 + "\n" + (l4 + "\n" + l5))))
  {
    var lines := [l0, l1, l2, l3, l4, l5];
    JoinCons(lines, "\n");
    JoinCons(lines[1..], "\n");
    JoinCons(lines[2..], "\n");
    JoinCons(lines[3..], "\n");
    JoinCons(lines[4..], "\n");
    assert lines[5..] == [l5];
  }

  /** One step of `Join`: the head, the separator, then the join of the tail. */
  lemma JoinCons(parts: seq<string>, sep: string)
    requires |parts| >= 2
    ensures Join(parts, sep) == parts[0] + sep + Join(parts[1..], sep)
  {
  }

  /** Python's `s.endswith(suffix)`. */
  predicate EndsWith(s: string, suffix: string) {
    |suffix| <= |s| && s[|s| - |suffix|..] == suffix
  }

  /** Python's `s.startswith(prefix)`. */
  predicate StartsWith(s: string, prefix: string) {
    |prefix| <= |s| && s[..|prefix|] == prefix
  }

  /** The first index at or after `from` where `s` holds `c`, as `str.find`. */
  function FirstIndex(s: string, c: char, from: nat): (r: Option<nat>)
    ensures r.Some? ==> from <= r.value < |s| && s[r.value] == c
    ensures r.Some? ==> forall j :: from <= j < r.value ==> s[j] != c
    ensures r.None? ==> forall j :: from <= j < |s| ==> s[j] != c
    decreases |s| - from
  {
    if from >= |s| then None
    else if s[from] == c then Some(from)
    else FirstIndex(s, c, from + 1)
  }

  /**
   * One iteration of the photo loop: a `data:` reference is split at its
   * first comma and its tail uploaded; any other reference is sent as is.
   */
  function ClassifyPhoto(p: string): (r: Result<PhotoInput>)
    ensures r.Ok? && r.value.Remote? ==> !StartsWith(p, DataScheme) && r.value.reference == p
    ensures r.Err? ==> StartsWith(p, DataScheme) && r.error == UnpackError
    ensures r.Ok? && r.value.Upload? ==> StartsWith(p, DataScheme) && |r.value.base64| < |p|
  {
    if StartsWith(p, DataScheme) then
      match FirstIndex(p, ',', 0)
      case None => Err(UnpackError)
      case Some(i) => Ok(Upload(p[i + 1..]))
    else
      Ok(Remote(p))
  }

  /** A `data:` reference uploads exactly the text after its first comma, later commas included. */
  lemma ClassifyDataReference(head: string, payload: string)
    requires StartsWith(head, DataScheme) && ',' !in head
    ensures ClassifyPhoto(head + "," + payload) == Ok(Upload(payload))
  {
    var p := head + "," + payload;
    assert p[..|DataScheme|] == head[..|DataScheme|];
    assert p[|head|] == ',';
    assert forall j :: 0 <= j < |head| ==> p[j] == head[j];
    assert p[|head| + 1..] == payload;
  }

  /** How every kind of reference is classified: forwarded verbatim, or an error when a `data:` reference has no comma. */
  lemma ClassifyPhotoCases(p: string)
    ensures !StartsWith(p, DataScheme) ==> ClassifyPhoto(p) == Ok(Remote(p))
    ensures StartsWith(p, DataScheme) ==> (ClassifyPhoto(p).Err? <==> ',' !in p)
    ensures StartsWith(p, DataScheme) && ClassifyPhoto(p).Err? ==> ClassifyPhoto(p).error == UnpackError
    ensures ClassifyPhoto(p).Ok? && ClassifyPhoto(p).value.Upload? ==>
      var payload := ClassifyPhoto(p).value.base64;
      |payload| < |p| && p[|p| - |payload| - 1] == ',' && ',' !in p[..|p| - |payload| - 1] && p[|p| - |payload|..] == payload
  {
    if StartsWith(p, DataScheme) {
      var i := FirstIndex(p, ',', 0);
      if i.None? {
        assert ',' !in p;
      } else {
        assert ',' in p;
        assert |p[i.value + 1..]| == |p| - i.value - 1;
      }
    }
  }

  /** The sends of the photo loop over `photos`, stopping at the first reference that raises. */
  function PhotoDelivery(admin: int, photos: seq<string>): (d: Delivery)
    ensures |d.sent| <= |photos|
    ensures d.error.None? ==> |d.sent| == |photos|
    decreases |photos|
  {
    if photos == [] then Delivery([], None)
    else
      var d := PhotoDelivery(admin, photos[..|photos| - 1]);
      if d.error.Some? then d
      else match ClassifyPhoto(photos[|photos| - 1])
        case Err(e) => Delivery(d.sent, Some(e))
        case Ok(input) => Delivery(d.sent + [Photo(admin, input)], None)
  }

  /** Once a reference has raised, the later references send nothing. */
  lemma {:induction false} DeliveryHaltsOnError(admin: int, photos: seq<string>, n: nat)
    requires n <= |photos| && PhotoDelivery(admin, photos[..n]).error.Some?
    ensures PhotoDelivery(admin, photos) == PhotoDelivery(admin, photos[..n])
    decreases |photos| - n
  {
    if n < |photos| {
      assert photos[..n + 1][..n] == photos[..n];
      DeliveryHaltsOnError(admin, photos, n + 1);
    } else {
      assert photos[..n] == photos;
    }
  }

  /** With every reference well formed, one photo goes to the administrator per reference, in list order. */
  lemma {:induction false} DeliveryInOrder(admin: int, photos: seq<string>)
    requires forall i :: 0 <= i < |photos| ==> ClassifyPhoto(photos[i]).Ok?
    ensures PhotoDelivery(admin, photos).error == None
    ensures |PhotoDelivery(admin, photos).sent| == |photos|
    ensures forall i :: 0 <= i < |photos| ==>
      PhotoDelivery(admin, photos).sent[i] == Photo(admin, ClassifyPhoto(photos[i]).value)
    decreases |photos|
  {
    if photos != [] {
      DeliveryInOrder(admin, photos[..|photos| - 1]);
    }
  }

  /** The photo loop raises exactly when some reference is a `data:` reference without a comma. */
  lemma {:induction false} DeliveryFailsIffMalformed(admin: int, photos: seq<string>)
    ensures PhotoDelivery(admin, photos).error.None? <==> forall i :: 0 <= i < |photos| ==> ClassifyPhoto(photos[i]).Ok?
    ensures PhotoDelivery(admin, photos).error.Some? ==> PhotoDelivery(admin, photos).error.value == UnpackError
    decreases |photos|
  {
    if photos != [] {
      var init := photos[..|photos| - 1];
      DeliveryFailsIffMalformed(admin, init);
      assert forall i :: 0 <= i < |init| ==> init[i] == photos[i];
      ClassifyPhotoCases(photos[|photos| - 1]);
    }
  }

  /** With a first malformed reference at `k`, the photos before it are sent and its error is reported. */
  lemma DeliveryStopsAtFirstError(admin: int, photos: seq<string>, k: nat)
    requires k < |photos| && ClassifyPhoto(photos[k]).Err?
    requires forall i :: 0 <= i < k ==> ClassifyPhoto(photos[i]).Ok?
    ensures PhotoDelivery(admin, photos).error == Some(ClassifyPhoto(photos[k]).error)
    ensures |PhotoDelivery(admin, photos).sent| == k
    ensures forall i :: 0 <= i < k ==>
      PhotoDelivery(admin, photos).sent[i] == Photo(admin, ClassifyPhoto(photos[i]).value)
  {
    var prefix := photos[..k + 1];
    assert prefix[..k] == photos[..k];
    DeliveryInOrder(admin, photos[..k]);
    DeliveryHaltsOnError(admin, photos, k + 1);
  }

  /** One more iteration of the photo loop, after the earlier ones raised nothing. */
  lemma DeliveryStep(admin: int, photos: seq<string>, i: nat)
    requires i < |photos| && PhotoDelivery(admin, photos[..i]).error == None
    ensures ClassifyPhoto(photos[i]).Err? ==>
      PhotoDelivery(admin, photos[..i + 1]) ==
      Delivery(PhotoDelivery(admin, photos[..i]).sent, Some(ClassifyPhoto(photos[i]).error))
    ensures ClassifyPhoto(photos[i]).Ok? ==>
      PhotoDelivery(admin, photos[..i + 1]) ==
      Delivery(PhotoDelivery(admin, photos[..i]).sent + [Photo(admin, ClassifyPhoto(photos[i]).value)], None)
  {
    assert photos[..i + 1][..i] == photos[..i];
  }

  /** Everything `notify_admin(req, reason)` sends: the caption, then the photos. */
  function Notify(admin: int, req: Request, reason: string): (d: Delivery)
    ensures 1 <= |d.sent| <= 1 + |req.photos|
    ensures d.error.None? ==> |d.sent| == 1 + |req.photos|
  {
    var photos := PhotoDelivery(admin, req.photos);
    Delivery([Text(admin, Caption(req, reason))] + photos.sent, photos.error)
  }

  /** The loop's result is that of its first `n` iterations when it ends there, by raising or by running out. */
  lemma DeliveryEndsAt(admin: int, photos: seq<string>, n: nat)
    requires n <= |photos|
    requires n == |photos| || PhotoDelivery(admin, photos[..n]).error.Some?
    ensures PhotoDelivery(admin, photos) == PhotoDelivery(admin, photos[..n])
  {
    if n == |photos| {
      assert photos[..n] == photos;
    } else {
      DeliveryHaltsOnError(admin, photos, n);
    }
  }

  /** Every message of a report goes to the administrator, and the caption comes first. */
  lemma {:induction false} NotifyOnlyToAdmin(admin: int, req: Request, reason: string)
    ensures Notify(admin, req, reason).sent[0] == Text(admin, Caption(req, reason))
    ensures forall m :: m in Notify(admin, req, reason).sent ==> m.chat == admin
  {
    PhotosOnlyToAdmin(admin, req.photos);
  }

  lemma {:induction false} PhotosOnlyToAdmin(admin: int, photos: seq<string>)
    ensures forall m :: m in PhotoDelivery(admin, photos).sent ==> m.chat == admin
    decreases |photos|
  {
    if photos != [] {
      PhotosOnlyToAdmin(admin, photos[..|photos| - 1]);
    }
  }

  /** The messaging bot, reduced to the ordered record of what it has sent. */
  class Bot {
    var outbox: seq<Message>

    constructor ()
      ensures outbox == []
    {
      outbox := [];
    }

    method SendMessage(chat: int, text: string)
      modifies this
      ensures outbox == old(outbox) + [Text(chat, text)]
    {
      outbox := outbox + [Text(chat, text)];
    }

    method SendPhoto(chat: int, photo: PhotoInput)
      modifies this
      ensures outbox == old(outbox) + [Photo(chat, photo)]
    {
      outbox := outbox + [Photo(chat, photo)];
    }
  }

  /** One iteration of the photo loop: send the classified reference, or report the error it raises. */
  method ForwardPhoto(bot: Bot, admin: int, p: string) returns (error: Option<string>)
    modifies bot
    ensures ClassifyPhoto(p).Err? ==> error == Some(ClassifyPhoto(p).error) && bot.outbox == old(bot.outbox)
    ensures ClassifyPhoto(p).Ok? ==> error == None && bot.outbox == old(bot.outbox) + [Photo(admin, ClassifyPhoto(p).value)]
  {
    var photo := ClassifyPhoto(p);
    if photo.Err? {
      return Some(photo.error);
    }
    bot.SendPhoto(admin, photo.value);
    error := None;
  }

  /** The photo loop of `notify_admin`: one photo per reference, until a malformed `data:` reference raises. */
  method ForwardPhotos(bot: Bot, admin: int, photos: seq<string>) returns (error: Option<string>)
    modifies bot
    ensures bot.outbox == old(bot.outbox) + PhotoDelivery(admin, photos).sent
    ensures error == PhotoDelivery(admin, photos).error
  {
    var i := 0;
    while i < |photos|
      invariant 0 <= i <= |photos|
      invariant bot.outbox == old(bot.outbox) + PhotoDelivery(admin, photos[..i]).sent
      invariant PhotoDelivery(admin, photos[..i]).error == None
    {
      DeliveryStep(admin, photos, i);
      error := ForwardPhoto(bot, admin, photos[i]);
      if error.Some? {
        DeliveryEndsAt(admin, photos, i + 1);
        return;
      }
      i := i + 1;
    }
    DeliveryEndsAt(admin, photos, i);
    error := None;
  }

  /**
   * `notify_admin`: send the caption, then forward the photos; the error a
   * malformed `data:` reference raises is returned for the caller to propagate.
   */
  method NotifyAdmin(bot: Bot, admin: int, req: Request, reason: string) returns (error: Option<string>)
    modifies bot
    ensures bot.outbox == old(bot.outbox) + Notify(admin, req, reason).sent
    ensures error == Notify(admin, req, reason).error
  {
    bot.SendMessage(admin, Caption(req, reason));
    error := ForwardPhotos(bot, admin, req.photos);
  }
}
