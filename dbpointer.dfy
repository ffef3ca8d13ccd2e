/**
 * The shell's DBPointer: a mutable holder of a namespace and an ObjectId.
 * An unset field is `None` (Java null); an ObjectId is its twelve bytes.
 */
module DBPointers {
  import opened Wrappers
  import opened BsonValues

  class DBPointer {
    var ns: Option<string>
    var id: Option<ObjectIdBytes>

    /** The default constructor leaves both fields unset. */
    constructor ()
      ensures ns == None && id == None
    {
      ns := None;
      id := None;
    }

    /** The script constructor stores its arguments exactly as given. */
    constructor Of(ns: Option<string>, id: Option<ObjectIdBytes>)
      ensures this.ns == ns && this.id == id
    {
      this.ns := ns;
      this.id := id;
    }

    method GetNs() returns (r: Option<string>)
      ensures r == ns
    {
      r := ns;
    }

    method GetId() returns (r: Option<ObjectIdBytes>)
      ensures r == id
    {
      r := id;
    }

    /** setNs changes the namespace and leaves the id alone. */
    method SetNs(ns: Option<string>)
      modifies this
      ensures this.ns == ns && id == old(id)
    {
      this.ns := ns;
    }

    /** setId changes the id and leaves the namespace alone. */
    method SetId(id: Option<ObjectIdBytes>)
      modifies this
      ensures this.id == id && ns == old(ns)
    {
      this.id := id;
    }
  }
}
