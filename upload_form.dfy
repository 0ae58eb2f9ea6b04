/** The painting upload form (`frontend/src/components/UploadPainting.jsx`):
    the checks on the chosen image file and on the form before it is
    posted, and the reset after a successful upload. */
module UploadForm {
  import opened Common

  /** The chosen file: its MIME type and its size in bytes. */
  datatype FileInfo = FileInfo(mimeType: string, size: nat)

  /** The price field as the two number readings the form applies see it:
      empty; only spaces (`isNaN` reads 0, `parseFloat` reads NaN); a
      number both read alike; or text `isNaN` rejects. */
  datatype PriceField = BlankPrice | SpacesOnly | Numeric(value: real) | NotNumber

  /** The messages the form shows. */
  datatype FormError = NotAnImage | ImageTooLarge | NoImage | MissingFields | InvalidPrice | UploadFailed

  /** Largest image the form takes: 5 MiB. */
  const MaxImageBytes := 5 * 1024 * 1024

  /** The check on a chosen file: its type must start with 'image/', and
      it must not exceed 5 MiB. */
  function ImageCheck(f: FileInfo): (r: Option<FormError>)
    ensures r.None? <==> "image/" <= f.mimeType && f.size <= MaxImageBytes
    ensures !("image/" <= f.mimeType) ==> r == Some(NotAnImage)
  {
    if !("image/" <= f.mimeType) then Some(NotAnImage)
    else if f.size > MaxImageBytes then Some(ImageTooLarge)
    else None
  }

  /** The size limit is inclusive: an image of exactly 5 MiB is taken,
      one byte more is not. */
  lemma ImageLimitInclusive(t: string)
    requires "image/" <= t
    ensures ImageCheck(FileInfo(t, 5242880)).None?
    ensures ImageCheck(FileInfo(t, 5242881)) == Some(ImageTooLarge)
  {
  }

  /** The submit checks in order: an image, then the three required fields
      non-empty, then a positive price. */
  function SubmitCheck(image: Option<FileInfo>, title: string, description: string, price: PriceField): Option<FormError> {
    if image.None? then Some(NoImage)
    else if title == "" || description == "" || price.BlankPrice? then Some(MissingFields)
    else if price.NotNumber? || (price.Numeric? && price.value <= 0.0) then Some(InvalidPrice)
    else None
  }

  /** A form is posted exactly when it has an image, a title, a
      description and a positive price, or a price of spaces alone, which
      neither number reading refuses; fields of spaces count as filled.
      The rendered price input is a required number field, so the
      browser itself never hands the handler a price of spaces: that
      branch is reachable only through the handler's own logic. */
  lemma SubmitCheckSpec(image: Option<FileInfo>, title: string, description: string, price: PriceField)
    ensures SubmitCheck(image, title, description, price).None? <==>
      && image.Some? && title != "" && description != ""
      && (price.SpacesOnly? || (price.Numeric? && price.value > 0.0))
    ensures image.None? ==> SubmitCheck(image, title, description, price) == Some(NoImage)
    ensures SubmitCheck(Some(FileInfo("image/png", 1)), " ", " ", SpacesOnly).None?
  {
  }

  /** What is posted. */
  datatype Upload = Upload(
    title: string,
    description: string,
    price: PriceField,
    width: string,
    height: string,
    materials: string,
    tags: string,
    image: FileInfo)

  /** The form's state. */
  class UploadPaintingForm {
    var title: string
    var description: string
    var price: PriceField
    var width: string
    var height: string
    var materials: string
    var tags: string
    var image: Option<FileInfo>
    var error: Option<FormError>

    /** Every field holds nothing. */
    predicate Empty()
      reads this
    {
      title == "" && description == "" && price == BlankPrice && width == "" && height == "" &&
      materials == "" && tags == "" && image.None?
    }

    constructor ()
      ensures Empty() && error.None?
    {
      title := "";
      description := "";
      price := BlankPrice;
      width := "";
      height := "";
      materials := "";
      tags := "";
      image := None;
      error := None;
    }

    /** A file chosen in the picker: no file changes nothing; a refused
        file shows its error and keeps the previous image; an accepted one
        becomes the image and clears the error. */
    method HandleImageChange(file: Option<FileInfo>)
      modifies this`image, this`error
      ensures file.None? ==> image == old(image) && error == old(error)
      ensures file.Some? && ImageCheck(file.value).Some? ==> image == old(image) && error == ImageCheck(file.value)
      ensures file.Some? && ImageCheck(file.value).None? ==> image == file && error.None?
    {
      if file.None? {
        return;
      }
      var f := file.value;
      if !("image/" <= f.mimeType) {
        error := Some(NotAnImage);
        return;
      }
      if f.size > MaxImageBytes {
        error := Some(ImageTooLarge);
        return;
      }
      image := file;
      error := None;
    }

    /** Submit: a refused form shows its error and posts nothing; an
        accepted one is posted as it stands, and is emptied when the
        upload succeeds or keeps its fields and shows an error when it
        fails. Returns what was posted, if anything. */
    method HandleSubmit(uploadSucceeds: bool) returns (posted: Option<Upload>)
      modifies this
      ensures SubmitCheck(old(image), old(title), old(description), old(price)).Some? ==>
        && posted.None?
        && error == SubmitCheck(old(image), old(title), old(description), old(price))
        && image == old(image) && title == old(title) && description == old(description) && price == old(price)
      ensures SubmitCheck(old(image), old(title), old(description), old(price)).None? ==>
        posted == Some(Upload(old(title), old(description), old(price), old(width), old(height),
                              old(materials), old(tags), old(image).value))
      ensures posted.Some? && uploadSucceeds ==> Empty() && error.None?
      ensures posted.Some? && !uploadSucceeds ==>
        error == Some(UploadFailed) && image == old(image) && title == old(title) && price == old(price)
      ensures posted.None? || !uploadSucceeds ==>
        width == old(width) && height == old(height) && materials == old(materials) && tags == old(tags) &&
        description == old(description)
    {
      if image.None? {
        error := Some(NoImage);
        return None;
      }
      if title == "" || description == "" || price.BlankPrice? {
        error := Some(MissingFields);
        return None;
      }
      if price.NotNumber? || (price.Numeric? && price.value <= 0.0) {
        error := Some(InvalidPrice);
        return None;
      }
      error := None;
      posted := Some(Upload(title, description, price, width, height, materials, tags, image.value));
      if uploadSucceeds {
        title := "";
        description := "";
        price := BlankPrice;
        width := "";
        height := "";
        materials := "";
        tags := "";
        image := None;
      } else {
        error := Some(UploadFailed);
      }
    }
  }
}
