/**
 * The dynamic type tests `is_list` and `is_numpy_array` of `qiflib.util.types`,
 * reduced to a tag on the argument: a Python list, a numpy array, or any other
 * value. Lists and arrays carry their elements; numpy's `array(...)`
 * conversion is the identity on those elements.
 */
module PyTypes {

  datatype Arg<T> = List(items: seq<T>) | NdArray(items: seq<T>) | Other

  predicate IsList<T>(a: Arg<T>)
  {
    a.List?
  }

  predicate IsNumpyArray<T>(a: Arg<T>)
  {
    a.NdArray?
  }

  /** Python's `len` on a list or an array. */
  function Len<T>(a: Arg<T>): nat
    requires !a.Other?
  {
    |a.items|
  }

  /** numpy's `array(...)` applied to a list or an array: a copy of the elements. */
  function ToArray<T>(a: Arg<T>): seq<T>
    requires !a.Other?
  {
    a.items
  }
}
