/**
 * The object store the handler talks to, reduced to what its three calls
 * observe: a bucket is the sequence of its objects in listing order, a prefix
 * listing keeps the objects whose key starts with the prefix, and a batch
 * delete removes the objects whose key it names.
 */
module Store {
  import opened Strings

  /** One stored object as a listing reports it (`Key`, `Size`, `LastModified`). */
  datatype ObjectRecord = ObjectRecord(key: string, size: nat, lastModified: int)

  /** `ListObjectsV2Command({Prefix: prefix})`: the objects under `prefix`, in bucket order. */
  function ListObjects(bucket: seq<ObjectRecord>, prefix: string): (r: seq<ObjectRecord>)
    ensures |r| <= |bucket|
    ensures forall o :: o in r ==> o in bucket && StartsWith(o.key, prefix)
    ensures forall o :: o in bucket && StartsWith(o.key, prefix) ==> o in r
  {
    if bucket == [] then []
    else
      var rest := ListObjects(bucket[1..], prefix);
      if StartsWith(bucket[0].key, prefix) then [bucket[0]] + rest else rest
  }

  /** `DeleteObjectsCommand({Objects: keys})`: every object whose key is named goes, the others stay in order. */
  function RemoveKeys(bucket: seq<ObjectRecord>, keys: seq<string>): (r: seq<ObjectRecord>)
    ensures |r| <= |bucket|
    ensures forall o :: o in r ==> o in bucket && o.key !in keys
    ensures forall o :: o in bucket && o.key !in keys ==> o in r
  {
    if bucket == [] then []
    else
      var rest := RemoveKeys(bucket[1..], keys);
      if bucket[0].key in keys then rest else [bucket[0]] + rest
  }
}
