/** `com.github.bootcommons.utils.Util`: the four `nullOrEmpty` overloads. A Java reference
    that may be `null` is an `Option`; the `null` test comes first, so no overload needs
    its argument to be non-null. */
module Util {
  import opened Wrappers

  /** `nullOrEmpty(String)`: false exactly when there is a string holding some character. */
  function NullOrEmptyString(s: Option<string>): (r: bool)
    ensures !r <==> s.Some? && exists c :: c in s.value
  {
    s.None? || (assert |s.value| > 0 ==> s.value[0] in s.value; |s.value| == 0)
  }

  /** `nullOrEmpty(List)`: false exactly when there is a list holding some element. */
  function NullOrEmptyList<T>(list: Option<seq<T>>): (r: bool)
    ensures !r <==> list.Some? && exists x :: x in list.value
  {
    list.None? || (assert |list.value| > 0 ==> list.value[0] in list.value; |list.value| == 0)
  }

  /** `nullOrEmpty(Map)`: false exactly when there is a map with some key. */
  function NullOrEmptyMap<K, V>(m: Option<map<K, V>>): (r: bool)
    ensures !r <==> m.Some? && exists k :: k in m.value
  {
    m.None? || |m.value| == 0
  }

  /** `nullOrEmpty(Set)`: false exactly when there is a set with some element. */
  function NullOrEmptySet<T>(s: Option<set<T>>): (r: bool)
    ensures !r <==> s.Some? && exists x :: x in s.value
  {
    s.None? || |s.value| == 0
  }
}
