/** The bucket as the handlers change it, one request at a time. */
module Store {
  import opened Bucket
  import opened Writes

  class ObjectStore {
    var objects: Contents

    constructor (objects: Contents)
      ensures this.objects == objects
    {
      this.objects := objects;
    }

    /** A request fails when the network does, or when there is nothing to copy; then nothing changes. */
    method Request(w: S3Write, reachable: bool) returns (ok: bool)
      modifies this
      ensures ok <==> reachable && (w.Copy? ==> w.src in old(objects))
      ensures objects == if ok then Perform(old(objects), w) else old(objects)
    {
      ok := reachable && (!w.Copy? || w.src in objects);
      if ok {
        match w
        case Copy(src, dst) => objects := objects[dst := objects[src]];
        case Delete(key) => objects := objects - {key};
        case Put(key, item) => objects := objects[key := item];
      }
    }
  }
}
