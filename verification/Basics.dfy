/** What several components need. */
module Basics {

  datatype Option<T> = None | Some(value: T)

  method Pick(s: set<string>) returns (x: string)
    requires s != {}
    ensures x in s
  {
    x :| x in s;
  }
}
