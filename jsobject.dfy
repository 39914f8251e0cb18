/** Property lookup `obj[key]` on a JavaScript object literal. Besides the
    literal's own keys, every such object inherits the members of
    `Object.prototype`, so a lookup by one of their names yields that
    member (a function, or the prototype object itself), not `undefined`. */
module JsObject {

  const ObjectPrototypeMembers: set<string> := {
    "constructor", "hasOwnProperty", "isPrototypeOf", "propertyIsEnumerable",
    "toLocaleString", "toString", "valueOf", "__proto__",
    "__defineGetter__", "__defineSetter__", "__lookupGetter__", "__lookupSetter__"
  }

  /** What `obj[key]` yields: an own value, an inherited (always truthy)
      member of `Object.prototype`, or `undefined`. */
  datatype Property<+V> = Own(value: V) | Inherited(name: string) | Undefined

  function Get<V>(table: map<string, V>, key: string): (p: Property<V>)
    ensures p.Own? <==> key in table
    ensures p.Own? ==> p.value == table[key]
    ensures p.Inherited? <==> key !in table && key in ObjectPrototypeMembers
  {
    if key in table then Own(table[key])
    else if key in ObjectPrototypeMembers then Inherited(key)
    else Undefined
  }
}
