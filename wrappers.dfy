/** Small value wrappers shared by every module of the model. */
module Wrappers {

  /** An optional value: `undefined`-or-value in the source's optional properties. */
  datatype Option<+T> = None | Some(value: T) {
    function GetOr(default: T): T {
      match this
      case Some(v) => v
      case None => default
    }
  }

  /** A JavaScript property as the compendium index delivers it: missing, explicitly
      `null`, or holding a value. `??` treats the first two alike; `getProperty(...) ===
      undefined` only the first. */
  datatype JsValue<+T> = Undefined | Null | Val(value: T) {
    /** The `??` operator. */
    function Or(default: T): T {
      match this
      case Val(v) => v
      case _ => default
    }

    predicate IsNullish() { !Val? }
  }

  /** The outcome of an operation that may throw: the error names the source's exception. */
  datatype Result<+T, +E> = Ok(value: T) | Err(error: E) {
    predicate IsFailure() { Err? }
  }

  /** A number that may be `Infinity` (badge maxima, feat limits). */
  datatype Limit = Finite(n: int) | Infinity {
    /** `x <= this` on the extended integers. */
    predicate Admits(x: int) {
      Infinity? || x <= n
    }
  }

  /** The property names every plain object inherits from `Object.prototype`: the `in`
      operator finds them, and indexing an object with one gives the inherited member. */
  const InheritedKeys: set<string> := {
    "constructor", "__proto__", "hasOwnProperty", "isPrototypeOf", "propertyIsEnumerable",
    "toLocaleString", "toString", "valueOf",
    "__defineGetter__", "__defineSetter__", "__lookupGetter__", "__lookupSetter__"
  }
}
