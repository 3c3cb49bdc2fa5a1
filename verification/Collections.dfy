/** Small helpers shared by the models: the optional value that stands for NULL and end(), waiting
    times, choosing from sets, and walking a set of integers upwards as an ordered map does. */
module Collections {
  datatype Option<+T> = None | Some(value: T)

  // How long until a model's next internal event; infinity and the largest double stand for ever.
  datatype Wait = Forever | For(left: real)

  function After(w: Wait, e: real): Wait { if w.Forever? then Forever else For(w.left - e) }

  /** An event in between does not move a model's alarm. */
  lemma SameAlarm(w: Wait, last: real, now: real)
    requires w.For?
    ensures After(w, now - last).For? && now + After(w, now - last).left == last + w.left
    ensures After(Forever, now - last) == Forever
  {
  }

  method Pick<T(==)>(s: set<T>) returns (x: T)
    requires s != {}
    ensures x in s
  {
    x :| x in s;
  }

  lemma Witness<T>(s: set<T>) returns (x: T)
    requires s != {}
    ensures x in s
  {
    x :| x in s;
  }

  method MinimumOf(s: set<int>) returns (min: int)
    requires s != {}
    ensures min in s && forall k :: k in s ==> min <= k
  {
    min := Pick(s);
    var rest := s - {min};
    while rest != {}
      invariant rest <= s && min in s
      invariant forall k :: k in s ==> min <= k || k in rest
      decreases rest
    {
      var k := Pick(rest);
      rest := rest - {k};
      if k < min {
        min := k;
      }
    }
  }
}
