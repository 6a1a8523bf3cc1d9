/**
 * The session handler Announce is given (CodeIgniter's session class or a
 * replacement): userdata($key) reads a value, set_userdata($key, $value)
 * writes one. Only values of the shape Announce stores are modelled, and a
 * key that was never written reads as the empty collection.
 */
module Sessions {
  import opened Collections

  class Session {
    var userdata: map<string, Collection>

    constructor (initial: map<string, Collection>)
      ensures userdata == initial
    {
      userdata := initial;
    }

    /** userdata($key). */
    function Userdata(key: string): (c: Collection)
      reads this
      ensures key in userdata ==> c == userdata[key]
      ensures key !in userdata ==> IsEmpty(c)
    {
      if key in userdata then userdata[key] else EMPTY
    }

    /** set_userdata($key, $value). */
    method SetUserdata(key: string, value: Collection)
      modifies this
      ensures userdata == old(userdata)[key := value]
    {
      userdata := userdata[key := value];
    }
  }
}
