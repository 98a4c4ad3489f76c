/** Searching the sorted separator keys of a tree node. */
module Keys {
  import opened Wrappers

  /** The first key above `key`, or |keys|. */
  function Route(keys: seq<int>, key: int): (i: nat)
    ensures i <= |keys| && (i < |keys| ==> key < keys[i]) && forall j | 0 <= j < i :: keys[j] <= key
  {
    if keys == [] || key < keys[0] then 0
    else
      var k := Route(keys[1..], key);
      assert forall j | 0 < j < k + 1 :: keys[j] == keys[1..][j - 1];
      k + 1
  }

  /** The first key not below `key`, or |keys|. */
  function RouteLeft(keys: seq<int>, key: int): (i: nat)
    ensures i <= |keys| && (i < |keys| ==> key <= keys[i]) && forall j | 0 <= j < i :: keys[j] < key
  {
    if keys == [] || key <= keys[0] then 0
    else
      var k := RouteLeft(keys[1..], key);
      assert forall j | 0 < j < k + 1 :: keys[j] == keys[1..][j - 1];
      k + 1
  }

  /** The lower bound of child i of a node whose keys start at lo. */
  function LoAt(keys: seq<int>, i: nat, lo: Option<int>): Option<int>
    requires i <= |keys|
  {
    if i == 0 then lo else Some(keys[i - 1])
  }

  function HiAt(keys: seq<int>, i: nat, hi: Option<int>): Option<int>
    requires i <= |keys|
  {
    if i == |keys| then hi else Some(keys[i])
  }
}
