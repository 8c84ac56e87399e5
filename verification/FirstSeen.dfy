/** Dropping repeats while keeping the first occurrence of each element in place,
    as the builders do with a set of what they have already seen. */
module FirstSeen {
  import opened Sorting

  function Once<T(==,!new)>(s: seq<T>): (r: seq<T>)
    ensures Distinct(r)
    ensures forall x :: x in r <==> x in s
  {
    if s == [] then []
    else
      var init, last := s[..|s| - 1], s[|s| - 1];
      assert s == init + [last];
      if last in init then Once(init) else Once(init) + [last]
  }
}
