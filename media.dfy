/** The media-host helpers of the user handlers: the null guards of the
    upload and delete wrappers and the public id derived from an asset URL.
    The host itself is a parameter: what it would answer if it were asked. */
module Media {
  import opened Strings

  /** The host's reply to an upload; the handlers read only its `url`. */
  datatype Asset = Asset(url: string)

  /** What one call of the upload wrapper does: the value it resolves to
      (None is `null`), whether it contacted the host, and which local file
      it removed afterwards. */
  datatype UploadEffect = UploadEffect(response: Option<Asset>, contactedHost: bool, removedFile: Option<string>)

  /** The upload wrapper. `host` is the asset the host would return, None
      when the host call throws. */
  function UploadOnCloudinary(localFilePath: Option<string>, host: Option<Asset>): (r: UploadEffect)
    ensures r.response.Some? <==> Truthy(localFilePath) && host.Some?
    ensures r.response.Some? ==> r.response == host
    ensures r.contactedHost <==> Truthy(localFilePath)
    ensures r.removedFile.Some? <==> r.contactedHost
    ensures r.contactedHost ==> r.removedFile == localFilePath
  {
    if !Truthy(localFilePath) then UploadEffect(None, false, None)
    else UploadEffect(host, true, localFilePath)
  }

  /** How the delete wrapper's promise ends: resolved to `null`, or rejected
      because `return response` names a constant that is only in scope inside
      the `try` block. */
  datatype Completion = ReturnedNull | ThrewReferenceError

  /** What one call of the delete wrapper does: how it ends, and the public
      id it asked the host to destroy, if it asked at all. */
  datatype DeleteEffect = DeleteEffect(completion: Completion, destroyed: Option<string>)

  /** The public id of an asset: the last `/`-separated segment of its URL,
      cut at the first `.`. */
  function PublicId(url: string): string {
    Split(Last(Split(url, '/')), '.')[0]
  }

  /** The delete wrapper. `destroyThrows` says whether the host's destroy
      call throws; a host error is swallowed, and a destroy that returns
      leads to the reference error after the `try` block. The wrapper never
      resolves to the host's reply. */
  function DeleteFromCloudinary(oldUrl: Option<string>, destroyThrows: bool): (r: DeleteEffect)
    ensures r.destroyed.Some? <==> Truthy(oldUrl)
    ensures r.destroyed.Some? ==> r.destroyed.value == PublicId(oldUrl.value)
    ensures r.completion == ReturnedNull <==> !Truthy(oldUrl) || destroyThrows
  {
    if !Truthy(oldUrl) then DeleteEffect(ReturnedNull, None)
    else
      var publicId := PublicId(oldUrl.value);
      if destroyThrows then DeleteEffect(ReturnedNull, Some(publicId))
      else DeleteEffect(ThrewReferenceError, Some(publicId))
  }

  /** The public id contains neither `/` nor `.`, is a prefix of the URL's
      last segment that is all of it or is followed by `.`, and that segment
      is the text after the URL's last `/`. */
  lemma PublicIdShape(url: string)
    ensures var seg := Last(Split(url, '/'));
      && |seg| <= |url| && seg == url[|url| - |seg|..] && '/' !in seg
      && (|seg| == |url| || url[|url| - |seg| - 1] == '/')
      && var id := PublicId(url);
      && |id| <= |seg| && id == seg[..|id|]
      && '/' !in id && '.' !in id
      && (|id| == |seg| || seg[|id|] == '.')
  {
    var seg := Last(Split(url, '/'));
    SplitLastIsSuffix(url, '/');
    SplitFirstIsPrefix(seg, '.');
    var id := PublicId(url);
    forall i | 0 <= i < |id| ensures id[i] != '/' {
      assert id[i] == seg[i];
    }
  }

  /** A segment without the separator, after the last separator, is what
      the last piece of a split is. */
  lemma LastPieceAfterSeparator(front: string, c: char, seg: string)
    requires c !in seg
    ensures Last(Split(front + [c] + seg, c)) == seg
  {
    var s := front + [c] + seg;
    SplitLastIsSuffix(s, c);
    var q := Last(Split(s, c));
    assert forall i :: |s| - |q| <= i < |s| ==> s[i] == q[i - (|s| - |q|)];
    assert forall i :: |s| - |seg| <= i < |s| ==> s[i] == seg[i - (|s| - |seg|)];
    assert s[|s| - |seg| - 1] == c;
    assert |q| == |seg|;
    assert s[|s| - |seg|..] == seg;
  }

  /** A prefix without the separator, followed by it, is the first piece. */
  lemma FirstPieceBeforeSeparator(p: string, c: char, rest: string)
    requires c !in p
    ensures Split(p + [c] + rest, c)[0] == p
  {
    var s := p + [c] + rest;
    SplitFirstIsPrefix(s, c);
    var q := Split(s, c)[0];
    assert forall i :: 0 <= i < |q| ==> s[i] == q[i];
    assert forall i :: 0 <= i < |p| ==> s[i] == p[i];
    assert s[|p|] == c;
    assert |q| == |p|;
    assert s[..|p|] == p;
  }

  /** The public id of any URL ending in "/img.v2.png" is "img". */
  lemma PublicIdExample(front: string)
    ensures PublicId(front + "/img.v2.png") == "img"
  {
    var name := "img.v2.png";
    assert front + "/img.v2.png" == front + ['/'] + name;
    assert '/' !in name;
    LastPieceAfterSeparator(front, '/', name);
    assert name == "img" + ['.'] + "v2.png";
    assert '.' !in "img";
    FirstPieceBeforeSeparator("img", '.', "v2.png");
  }
}
