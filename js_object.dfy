/** Property lookup on a JavaScript object literal: besides its own keys,
    `obj[name]` finds the members every plain object inherits from
    `Object.prototype`. All of them are truthy (functions, and the
    prototype object itself for `__proto__`). */
module JsObject {
  /** The names of the members of `Object.prototype`. */
  const PrototypeKeys: set<string> := {
    "constructor", "__proto__", "hasOwnProperty", "isPrototypeOf",
    "propertyIsEnumerable", "toString", "toLocaleString", "valueOf",
    "__defineGetter__", "__defineSetter__", "__lookupGetter__", "__lookupSetter__"
  }

  /** `name` finds an inherited member of a plain object that does not
      have it as an own key. */
  predicate IsInheritedKey(name: string) {
    name in PrototypeKeys
  }
}
