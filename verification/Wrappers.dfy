/** Small things every module uses. */
module Wrappers {
  datatype Option<+T> = None | Some(value: T)

  function Keys<K>(ks: seq<K>): set<K> {
    set k | k in ks
  }

  ghost function Pick<T(!new)>(s: set<T>): (x: T)
    requires s != {}
    ensures x in s
  {
    var x :| x in s; x
  }
}
