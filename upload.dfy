/**
 * The upload service (src/services/upload.service.js): the resize rule of
 * `compressImage`, the size threshold above which `uploadImg` compresses,
 * and the choice of the URL from the image host's response. Decoding,
 * canvas drawing, the JPEG quality loop and the request itself are not part
 * of this model; their results are parameters.
 */
module Upload {
  import opened Wrappers
  import opened Entities
  import opened Basics

  /** The longest side `compressImage` allows by default. */
  const MaxWidthOrHeight: real := 1920.0
  /** Files above this many bytes are compressed before upload. */
  const CompressAboveBytes: nat := 8 * 1024 * 1024

  /** The resize step of `compressImage`: a landscape image wider than `max`
      gets width `max`; any other image taller than `max` gets height `max`;
      the other side follows the aspect ratio. The result fits in a `max`
      square, keeps the aspect ratio, and an image that fits is unchanged. */
  method Resize(w: real, h: real, max: real) returns (width: real, height: real)
    requires max > 0.0
    ensures w > h && w > max ==> width == max && height == h * (max / w)
    ensures !(w > h) && h > max ==> height == max && width == w * (max / h)
    ensures 0.0 <= w && 0.0 <= h ==> 0.0 <= width <= max && 0.0 <= height <= max
    ensures width * h == height * w
    ensures w <= max && h <= max ==> width == w && height == h
  {
    width := w;
    height := h;
    if width > height {
      if width > max {
        ScaleDown(w, h, max);
        height := height * (max / width);
        width := max;
      }
    } else {
      if height > max {
        ScaleDown(h, w, max);
        width := width * (max / height);
        height := max;
      }
    }
  }

  /** Scaling the longer side down to `max` scales the shorter one by the
      same factor, which keeps the ratio and fits the shorter one in `max`. */
  lemma ScaleDown(long: real, short: real, max: real)
    requires long >= short && long > max > 0.0
    ensures short * (max / long) * long == short * max
    ensures 0.0 <= short ==> 0.0 <= short * (max / long) <= max
  {
    var k := max / long;
    assert k * long == max;
    assert short * k * long == short * (k * long);
    if 0.0 <= short {
      assert 0.0 <= k;
      MulNonNeg(short, k);
      assert (long - short) * k >= 0.0 by {
        MulNonNeg(long - short, k);
      }
    }
  }

  /** `imageFile.size > 8 * 1024 * 1024`. */
  predicate NeedsCompression(f: File) {
    f.size > CompressAboveBytes
  }

  /** The image host's reply: the HTTP status flag and the JSON fields read. */
  datatype Response = Response(ok: bool, secureUrl: string, url: string, errorMessage: Option<string>)

  datatype UploadError = UploadFailed(msg: string) | NoUrl | RequestFailed

  /** The URL `uploadImg` returns or the error it throws: a failed status
      is an upload failure with the host's message (or "Unknown error"); a
      good status yields `secure_url`, else `url`, else no URL at all. */
  function PickUrl(res: Response): (r: Result<string, UploadError>)
    ensures !res.ok <==> r.Err? && r.error.UploadFailed?
    ensures !res.ok ==> r.error.msg == "Upload failed: " + (if res.errorMessage != None && res.errorMessage.value != "" then res.errorMessage.value else "Unknown error")
    ensures r == Err(NoUrl) <==> res.ok && res.secureUrl == "" && res.url == ""
    ensures r.Ok? ==> r.value != "" && (r.value == res.secureUrl || (res.secureUrl == "" && r.value == res.url))
  {
    if !res.ok then
      Err(UploadFailed("Upload failed: " + (if res.errorMessage != None && res.errorMessage.value != "" then res.errorMessage.value else "Unknown error")))
    else
      var url := if res.secureUrl != "" then res.secureUrl else res.url;
      if url == "" then Err(NoUrl) else Ok(url)
  }

  /** `uploadImg`: the file sent is the compressed one exactly when the
      original is above the threshold; `compressed` is what `compressImage`
      produces and `response` the reply, `None` when the request fails. */
  method UploadImg(file: File, compressed: File, response: Option<Response>) returns (sent: File, r: Result<string, UploadError>)
    ensures sent == if NeedsCompression(file) then compressed else file
    ensures response == None ==> r == Err(RequestFailed)
    ensures response != None ==> r == PickUrl(response.value)
  {
    var imageFile := file;
    if imageFile.size > 8 * 1024 * 1024 {
      imageFile := compressed;
    }
    sent := imageFile;
    if response == None {
      return sent, Err(RequestFailed);
    }
    var res := response.value;
    if !res.ok {
      var msg := if res.errorMessage != None && res.errorMessage.value != "" then res.errorMessage.value else "Unknown error";
      return sent, Err(UploadFailed("Upload failed: " + msg));
    }
    var url := if res.secureUrl != "" then res.secureUrl else res.url;
    if url == "" {
      return sent, Err(NoUrl);
    }
    r := Ok(url);
  }

}
