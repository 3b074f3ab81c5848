/**
  The merchant's add-product page (frontend/src/app/merchant/products/new/page.tsx):
  the comma-separated list fields, the uploaded-image list with its
  previews, and the submit guard. React state is a `FormState` value; the
  upload endpoint's answer and the number parsers are parameters.
*/
module ProductForm {
  import opened Wrappers
  import opened Builtins
  import Catalog

  /** The image lists, aligned by position, and the error line. */
  datatype FormState = FormState(uploadedImages: seq<string>, imagePreviews: seq<string>, error: string)

  /** The text inputs of the form. */
  datatype Fields = Fields(
    name: string,
    description: string,
    price: string,
    stock: string,
    category: string,
    brand: string,
    colors: string,
    sizes: string)

  /** The state after submitting, and the body sent to `POST /products`, if any. */
  datatype Submission = Submission(state: FormState, request: Option<Catalog.ProductBody>)

  const NoImages: string := "Please upload at least one image"
  const UploadFailed: string := "Failed to upload images"

  /** `.map(s => s.trim()).filter(s => s)` over the pieces. */
  function CleanPieces(pieces: seq<string>): (r: seq<string>)
    ensures |r| <= |pieces|
    ensures forall k | 0 <= k < |r| :: r[k] != "" && IsTrimmed(r[k])
  {
    if |pieces| == 0 then []
    else (if Trim(pieces[0]) == "" then [] else [Trim(pieces[0])]) + CleanPieces(pieces[1..])
  }

  lemma {:induction false} CleanConcat(a: seq<string>, b: seq<string>)
    ensures CleanPieces(a + b) == CleanPieces(a) + CleanPieces(b)
  {
    if |a| > 0 {
      assert (a + b)[1..] == a[1..] + b;
      CleanConcat(a[1..], b);
    } else {
      assert a + b == b;
    }
  }

  /** The colours and sizes inputs: split at commas, trim each piece, drop the empty ones. */
  function ParseList(s: string): (r: seq<string>)
    ensures forall k | 0 <= k < |r| :: r[k] != "" && IsTrimmed(r[k])
  {
    CleanPieces(Split(s, ','))
  }

  /** Text without a comma is one entry, its trimmed self, unless that is empty. */
  lemma ParseListSingle(s: string)
    requires ',' !in s
    ensures ParseList(s) == if Trim(s) == "" then [] else [Trim(s)]
  {
    SplitHead(s, ',');
    SplitJoin(s, ',');
    assert Split(s, ',') == [s];
  }

  /** The entries of text joined by a comma are the entries of each side, in input order. */
  lemma ParseListConcat(a: string, b: string)
    ensures ParseList(a + "," + b) == ParseList(a) + ParseList(b)
  {
    SplitConcat(a, ',', b);
    CleanConcat(Split(a, ','), Split(b, ','));
  }

  /** Blank input gives no entries. */
  lemma ParseListBlank(s: string)
    requires AllWhiteSpace(s)
    ensures ParseList(s) == []
  {
    assert ',' !in s by {
      assert forall k | 0 <= k < |s| :: s[k] != ',';
    }
    ParseListSingle(s);
    TrimEmptyIff(s);
  }

  /** `xs.filter((_, i) => i !== index)` */
  function RemoveAt<T>(xs: seq<T>, index: int): (r: seq<T>)
    ensures 0 <= index < |xs| ==> r == xs[..index] + xs[index + 1..]
    ensures !(0 <= index < |xs|) ==> r == xs
  {
    if |xs| == 0 then []
    else
      var rest := RemoveAt(xs[1..], index - 1);
      assert 0 < index < |xs| ==> xs[1..][..index - 1] == xs[1..index];
      (if index == 0 then [] else [xs[0]]) + rest
  }

  /** Each uploaded image has its preview at the same position. */
  predicate Aligned(s: FormState) {
    |s.uploadedImages| == |s.imagePreviews|
  }

  /** `removeImage(index)`: the same position leaves both lists. */
  function RemoveImage(s: FormState, index: int): (t: FormState)
    ensures t.uploadedImages == RemoveAt(s.uploadedImages, index)
    ensures t.imagePreviews == RemoveAt(s.imagePreviews, index)
    ensures t.error == s.error
    ensures Aligned(s) ==> Aligned(t)
    ensures Aligned(s) && 0 <= index < |s.uploadedImages| ==>
              |t.uploadedImages| == |s.uploadedImages| - 1
              && forall k | 0 <= k < |t.uploadedImages| ::
                   var j := if k < index then k else k + 1;
                   t.uploadedImages[k] == s.uploadedImages[j] && t.imagePreviews[k] == s.imagePreviews[j]
  {
    s.(uploadedImages := RemoveAt(s.uploadedImages, index), imagePreviews := RemoveAt(s.imagePreviews, index))
  }

  /**
    `handleImageUpload`: `files` are the chosen files, each standing for the
    preview URL made from it; `urls` is the endpoint's list, `None` when the
    answer is not OK. Nothing happens for an empty selection.
  */
  function Upload(s: FormState, files: seq<string>, urls: Option<seq<string>>): (t: FormState)
    ensures |files| == 0 ==> t == s
    ensures |files| > 0 && urls.None? ==>
              t == s.(error := UploadFailed)
    ensures |files| > 0 && urls.Some? ==>
              && t.uploadedImages == s.uploadedImages + urls.value
              && t.imagePreviews == s.imagePreviews + files
              && t.error == ""
    ensures Aligned(s) && (urls.Some? ==> |urls.value| == |files|) ==> Aligned(t)
  {
    if |files| == 0 then s
    else
      match urls
      case None => s.(error := UploadFailed)
      case Some(u) => FormState(s.uploadedImages + u, s.imagePreviews + files, "")
  }

  /**
    `handleSubmit`: with no uploaded image it only sets the error; otherwise
    it sends the product, numbers parsed (`None` for NaN, which JSON turns
    into null), the image list as uploaded, and the colours and sizes parsed.
  */
  function Submit(s: FormState, fields: Fields, parseFloat: string -> Option<real>, parseInt: string -> Option<int>): (r: Submission)
    ensures r.request.None? <==> |s.uploadedImages| == 0
    ensures |s.uploadedImages| == 0 ==> r.state == s.(error := NoImages)
    ensures r.request.Some? ==>
              var body := r.request.value;
              && r.state == s.(error := "")
              && body.images == Some(s.uploadedImages)
              && body.colors == Some(ParseList(fields.colors))
              && body.sizes == Some(ParseList(fields.sizes))
              && body.price == parseFloat(fields.price)
              && (body.stock.Some? <==> parseInt(fields.stock).Some?)
              && (body.stock.Some? ==> body.stock.value == parseInt(fields.stock).value as real)
              && body.name == Some(fields.name) && body.category == Some(fields.category)
              && body.description == Some(fields.description) && body.brand == Some(fields.brand)
              && body.tags.None? && body.originalPrice.None? && body.discountPrice.None?
  {
    if |s.uploadedImages| == 0 then Submission(s.(error := NoImages), None)
    else
      var stock := parseInt(fields.stock);
      var body := Catalog.ProductBody(
        Some(fields.name), Some(fields.description), parseFloat(fields.price), None, None,
        Some(fields.category), Some(fields.brand),
        if stock.Some? then Some(stock.value as real) else None,
        Some(s.uploadedImages), Some(ParseList(fields.colors)), Some(ParseList(fields.sizes)), None);
      Submission(s.(error := ""), Some(body))
  }

  /**
    What the product service makes of a submitted form: the uploaded images
    and the parsed lists arrive unchanged, a stock of 0, or one that does not
    parse, becomes 100, and any other stock below 1e21 in magnitude arrives
    unchanged; from 1e21 on only its leading digit survives.
  */
  lemma SubmittedProduct(s: FormState, fields: Fields, parseFloat: string -> Option<real>, parseInt: string -> Option<int>)
    requires |s.uploadedImages| > 0 && parseFloat(fields.price).Some?
    ensures var body := Submit(s, fields, parseFloat, parseInt).request.value;
            var reply := Catalog.CreateProduct(body, true).0;
            && reply.Created?
            && reply.data.images == s.uploadedImages
            && reply.data.colors == ParseList(fields.colors)
            && reply.data.sizes == ParseList(fields.sizes)
            && reply.data.tags == []
            && reply.data.name == fields.name && reply.data.description == Some(fields.description)
            && reply.data.brand == fields.brand
            && (parseInt(fields.stock).None? || parseInt(fields.stock) == Some(0) ==> reply.data.stock == 100)
            && (parseInt(fields.stock).Some? && parseInt(fields.stock) != Some(0)
                && -Catalog.PlainHigh < parseInt(fields.stock).value as real < Catalog.PlainHigh ==>
                  reply.data.stock == parseInt(fields.stock).value)
            && (parseInt(fields.stock).Some? && parseInt(fields.stock).value as real >= Catalog.PlainHigh ==>
                  1 <= reply.data.stock <= 9)
  {
    var n := parseInt(fields.stock);
    if n.Some? {
      assert Catalog.Truncate(n.value as real) == n.value;
    }
  }
}
