/**
 * The review serializers of ggongsul/review/serializers.py: UrlRelatedField,
 * which reads review images by primary key and writes them out as their URL,
 * and ReviewSerializer.validate, which refuses an image already attached to a
 * review.
 */
module ReviewSerializers {
  import opened Wrappers
  import Text

  /** A ReviewImage row: its id, the review it is attached to (if any) and its image URL. */
  datatype ReviewImage = ReviewImage(id: nat, review: Option<nat>, url: string)

  /** The pk value a client sends for one image. */
  datatype PkData =
    | IntPk(n: int)                  // a JSON number
    | TextPk(s: string)              // a JSON string
    | NullPk                         // JSON null: pk=None is an IS NULL lookup
    | BoolPk(b: bool)                // JSON true or false: the pk lookup takes int(b)
    | OtherData(typeName: string)    // anything else (list, object, ...), by its Python type name

  /** The two field errors of UrlRelatedField. */
  datatype FieldError =
    | DoesNotExist(pkValue: string)
    | IncorrectType(dataType: string)

  /** str(data), as the does_not_exist message shows it. */
  function PkText(data: PkData): (t: string)
    ensures data.IntPk? && data.n >= 0 ==> Text.AllDigits(t) && Text.DigitsValue(t) == data.n
  {
    match data
    case IntPk(n) =>
      if n >= 0 then Text.NatToStringRoundTrip(n); Text.NatToString(n) else "-" + Text.NatToString(-n)
    case TextPk(s) => s
    case NullPk => "None"
    case BoolPk(b) => if b then "True" else "False"
    case OtherData(typeName) => "<" + typeName + ">"
  }

  /** The message each field error carries. */
  function FieldErrorMessage(e: FieldError): string
  {
    match e
    case DoesNotExist(pkValue) => "Invalid pk \"" + pkValue + "\" - object does not exist."
    case IncorrectType(dataType) => "Incorrect type. Expected pk value, received " + dataType + "."
  }

  /** The id a boolean pk is looked up as: int(False) == 0, int(True) == 1. */
  function BoolId(b: bool): nat
  {
    if b then 1 else 0
  }

  /**
   * UrlRelatedField.to_internal_value: queryset.get(pk=data) over the review
   * images, keyed by id. A number, a boolean or a string of decimal digits is
   * looked up (a miss is does_not_exist); null matches no row, since every image
   * has an id, and is does_not_exist too; text that is not a number and any
   * other type fail the pk conversion, which is reported as incorrect_type.
   */
  function ToInternalValue(data: PkData, images: map<nat, ReviewImage>): (r: Result<ReviewImage, FieldError>)
    ensures r.Success? <==>
              || (data.IntPk? && data.n >= 0 && data.n in images)
              || (data.TextPk? && |data.s| > 0 && Text.AllDigits(data.s) && Text.DigitsValue(data.s) in images)
              || (data.BoolPk? && BoolId(data.b) in images)
    ensures r.Success? && data.IntPk? ==> r.value == images[data.n]
    ensures r.Success? && data.TextPk? ==> r.value == images[Text.DigitsValue(data.s)]
    ensures r.Success? && data.BoolPk? ==> r.value == images[BoolId(data.b)]
    ensures data.NullPk? ==> r == Failure(DoesNotExist("None"))
    ensures r.Failure? && r.error.DoesNotExist? ==> r.error.pkValue == PkText(data)
    ensures r.Failure? && r.error.IncorrectType? <==> data.OtherData? || (data.TextPk? && !(|data.s| > 0 && Text.AllDigits(data.s)))
  {
    match data
    case IntPk(n) =>
      if n >= 0 && n in images then Success(images[n]) else Failure(DoesNotExist(PkText(data)))
    case TextPk(s) =>
      if |s| > 0 && Text.AllDigits(s) then
        var pk := Text.DigitsValue(s);
        if pk in images then Success(images[pk]) else Failure(DoesNotExist(PkText(data)))
      else Failure(IncorrectType("str"))
    case NullPk => Failure(DoesNotExist(PkText(data)))
    case BoolPk(b) =>
      if BoolId(b) in images then Success(images[BoolId(b)]) else Failure(DoesNotExist(PkText(data)))
    case OtherData(typeName) => Failure(IncorrectType(typeName))
  }

  /** UrlRelatedField.to_representation with slug_field "image": the image's URL. */
  function ToRepresentation(obj: ReviewImage): (url: string)
  {
    obj.url
  }

  /**
   * Reading an image back by the id it is written with finds it, whether the id
   * comes as a number or as its decimal text; its representation is its URL.
   */
  lemma PkRoundTrip(images: map<nat, ReviewImage>, img: ReviewImage)
    requires img.id in images && images[img.id] == img
    ensures ToInternalValue(IntPk(img.id), images) == Success(img)
    ensures ToInternalValue(TextPk(Text.NatToString(img.id)), images) == Success(img)
    ensures ToRepresentation(ToInternalValue(TextPk(Text.NatToString(img.id)), images).value) == img.url
  {
    Text.NatToStringRoundTrip(img.id);
  }

  /** A pk that names no image is reported with the pk as sent, never as an incorrect type. */
  lemma MissingPkIsDoesNotExist(images: map<nat, ReviewImage>, n: nat)
    requires n !in images
    ensures ToInternalValue(IntPk(n), images) == Failure(DoesNotExist(Text.NatToString(n)))
    ensures ToInternalValue(TextPk(Text.NatToString(n)), images) == Failure(DoesNotExist(Text.NatToString(n)))
  {
    Text.NatToStringRoundTrip(n);
  }

  /**
   * JSON null names no image and is reported as does_not_exist, never as an
   * incorrect type; a boolean pk finds what its integer finds.
   */
  lemma NullAndBoolPks(images: map<nat, ReviewImage>, b: bool)
    ensures ToInternalValue(NullPk, images).Failure? && ToInternalValue(NullPk, images).error.DoesNotExist?
    ensures ToInternalValue(BoolPk(b), images).Success? <==> ToInternalValue(IntPk(BoolId(b)), images).Success?
    ensures ToInternalValue(BoolPk(b), images).Success? ==>
              ToInternalValue(BoolPk(b), images) == ToInternalValue(IntPk(BoolId(b)), images)
  {
  }

  /**
   * The validated attrs of a review. A partial update leaves out the fields the
   * request omits, so images is None on a PATCH that does not send it.
   */
  datatype ReviewAttrs = ReviewAttrs(member: Option<nat>, partner: Option<nat>, ratingScore: int, body: string,
                                     images: Option<seq<ReviewImage>>)

  /** How validate ends when it does not return the attrs. */
  datatype ValidateError =
    | ImagesKeyError             // attrs["images"] raises KeyError: an uncaught 500
    | ImageAttached(msg: string) // the ValidationError naming an attached image

  /** The position of the first image already attached to a review, in list order. */
  function FirstAttached(images: seq<ReviewImage>): (k: Option<nat>)
    ensures k.Some? ==> k.value < |images| && images[k.value].review.Some?
                        && forall j :: 0 <= j < k.value ==> images[j].review.None?
    ensures k.None? <==> forall i :: 0 <= i < |images| ==> images[i].review.None?
  {
    if images == [] then None
    else if images[0].review.Some? then Some(0)
    else
      var k := FirstAttached(images[1..]);
      assert forall j :: 0 < j < |images| ==> images[j] == images[1..][j - 1];
      if k.Some? then Some(k.value + 1) else None
  }

  /** The ValidationError message naming an attached image. */
  function AttachedMessage(imageId: nat): string
  {
    "review image " + Text.NatToString(imageId) + " 는 이미 리뷰에 등록되어있는 image 입니다."
  }

  /** The message names the image: different images give different messages. */
  lemma AttachedMessageInjective(a: nat, b: nat)
    requires AttachedMessage(a) == AttachedMessage(b)
    ensures a == b
  {
    var prefix := "review image ";
    var suffix := " 는 이미 리뷰에 등록되어있는 image 입니다.";
    var ta := Text.NatToString(a);
    var tb := Text.NatToString(b);
    var m := AttachedMessage(a);
    // equal lengths around the same constant parts make the numbers equally long
    assert |m| == |prefix| + |ta| + |suffix| == |prefix| + |tb| + |suffix|;
    assert ta == m[|prefix|..|prefix| + |ta|] == tb;
    Text.NatToStringInjective(a, b);
  }

  /**
   * ReviewSerializer.validate: a KeyError when attrs have no images (a partial
   * update that omits them); otherwise the attrs unchanged when no image is
   * attached to a review yet (an empty list included), and else the message
   * naming the first attached image.
   */
  method Validate(attrs: ReviewAttrs) returns (r: Result<ReviewAttrs, ValidateError>)
    ensures attrs.images.None? <==> r == Failure(ImagesKeyError)
    ensures r.Success? <==> attrs.images.Some? && forall i :: 0 <= i < |attrs.images.value| ==> attrs.images.value[i].review.None?
    ensures r.Success? ==> r.value == attrs
    ensures r.Failure? && attrs.images.Some? ==>
              var k := FirstAttached(attrs.images.value);
              k.Some? && r.error == ImageAttached(AttachedMessage(attrs.images.value[k.value].id))
  {
    if attrs.images.None? {
      return Failure(ImagesKeyError);
    }
    var images := attrs.images.value;
    for i := 0 to |images|
      invariant forall j :: 0 <= j < i ==> images[j].review.None?
    {
      var ri := images[i];
      if ri.review.Some? {
        return Failure(ImageAttached(AttachedMessage(ri.id)));
      }
    }
    r := Success(attrs);
  }
}
