/** `lib/r2.ts`: the object key and the public URL of an uploaded image,
    and the single put into the bucket. The bucket's public base URL is the
    configuration parameter `base`; `Date.now()` is the parameter `now`. */
module R2 {
  import opened Text
  import opened Archive
  import opened Backends

  const KeyPrefix := "images/"

  /** `images/${now}-${filename}` */
  function ObjectKey(now: nat, filename: string): (key: string)
    ensures StartsWith(key, KeyPrefix + Decimal(now) + "-")
    ensures |filename| <= |key| && key[|key| - |filename|..] == filename
    ensures |key| == |KeyPrefix| + |Decimal(now)| + 1 + |filename|
  {
    KeyPrefix + Decimal(now) + "-" + filename
  }

  /** `${base}/${key}`: what `getR2Url(key)` returns. */
  function GetR2Url(base: string, key: string): (url: string)
    ensures StartsWith(url, base + "/")
    ensures url[|base| + 1..] == key
  {
    base + "/" + key
  }

  /** The key yields back both the timestamp and the filename: since a decimal
      timestamp has no `-`, the first `-` after the prefix ends it. */
  lemma ObjectKeyInjective(t1: nat, f1: string, t2: nat, f2: string)
    ensures ObjectKey(t1, f1) == ObjectKey(t2, f2) <==> t1 == t2 && f1 == f2
  {
    if ObjectKey(t1, f1) == ObjectKey(t2, f2) {
      var k := ObjectKey(t1, f1);
      assert k[|KeyPrefix|..] == Decimal(t1) + "-" + f1;
      assert k[|KeyPrefix|..] == Decimal(t2) + "-" + f2;
      DecimalHasNoDash(t1);
      DecimalHasNoDash(t2);
      SplitAtFirst(Decimal(t1), f1, Decimal(t2), f2, '-');
      DecimalInjective(t1, t2);
    }
  }

  /** The same filename uploaded at two different instants gets two keys. */
  lemma DistinctInstantsDistinctKeys(t1: nat, t2: nat, filename: string)
    requires t1 != t2
    ensures ObjectKey(t1, filename) != ObjectKey(t2, filename)
  {
    ObjectKeyInjective(t1, filename, t2, filename);
  }

  /** For a fixed base, the URL determines the key. */
  lemma GetR2UrlInjective(base: string, k1: string, k2: string)
    ensures GetR2Url(base, k1) == GetR2Url(base, k2) <==> k1 == k2
  {
    if GetR2Url(base, k1) == GetR2Url(base, k2) {
      assert GetR2Url(base, k1)[|base| + 1..] == k1;
    }
  }

  /** `uploadToR2`: send the put for `images/<now>-<filename>`, then return the
      public URL. `sent` is the outcome of `r2Client.send`; a failed send
      propagates as `None` (the thrown error), with no URL and no object. */
  method UploadToR2(s: Stores, base: string, now: nat, body: Bytes, filename: string,
                    contentType: string, sent: bool)
      returns (url: Option<string>)
    modifies s`objects
    ensures sent ==> s.objects == old(s.objects)[ObjectKey(now, filename) := StoredObject(body, contentType)]
    ensures sent ==> url == Some(GetR2Url(base, ObjectKey(now, filename)))
    ensures !sent ==> s.objects == old(s.objects) && url == None
  {
    var key := ObjectKey(now, filename);
    if !sent {
      return None;
    }
    s.objects := s.objects[key := StoredObject(body, contentType)];
    url := Some(GetR2Url(base, key));
  }
}
