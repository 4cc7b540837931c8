/** One collection of the document store: the four calls every adapter is built from.
    Each call is one atomic step; `Create` carries the "must not exist" precondition. */
module DocumentStore {
  import opened Basics

  class Collection<V> {
    var docs: map<string, V>

    constructor ()
      ensures docs == map[]
    {
      docs := map[];
    }

    method Create(key: string, value: V) returns (created: bool)
      modifies this
      ensures created <==> key !in old(docs)
      ensures docs == if created then old(docs)[key := value] else old(docs)
    {
      created := key !in docs;
      if created {
        docs := docs[key := value];
      }
    }

    method Get(key: string) returns (found: Option<V>)
      ensures found == if key in docs then Some(docs[key]) else None
    {
      found := if key in docs then Some(docs[key]) else None;
    }

    method Put(key: string, value: V)
      modifies this
      ensures docs == old(docs)[key := value]
    {
      docs := docs[key := value];
    }

    method Delete(key: string)
      modifies this
      ensures docs == old(docs) - {key}
    {
      docs := docs - {key};
    }
  }
}
