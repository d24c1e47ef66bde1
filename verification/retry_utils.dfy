/** Converting configured exception class names into failure kinds
    (spring7 `RetryUtils`).

    `Class.forName` is replaced by a registry: every class name the class
    loader knows maps to its superclass chain, root first and ending with the
    class itself. A class is a Throwable when `java.lang.Throwable` is on its
    chain.
 */
module RetryUtils {
  import opened Kinds

  /** The classes visible to the class loader, by name. */
  type Registry = map<string, seq<string>>

  const ThrowableName: string := "java.lang.Throwable"

  /** The two ways a configured name is rejected (both surface as
      `IllegalArgumentException`). */
  datatype ConfigError = ClassNotFound(className: string) | NotThrowable(className: string) {
    function Message(): string {
      match this
      case ClassNotFound(n) => "Class " + n + " not found"
      case NotThrowable(n) => "Class " + n + " is not a subclass of java.lang.Throwable"
    }
  }

  /** A conversion's result: the converted value or the first error. */
  datatype Conversion<+T> = Converted(value: T) | Rejected(error: ConfigError)

  /** `Throwable.class.isAssignableFrom(clazz)` for a class with this chain. */
  predicate IsThrowable(chain: seq<string>) {
    ThrowableName in chain
  }

  /** Resolves one class name: unknown names and non-Throwable classes are
      rejected, each with its own error naming the class. */
  function ConvertToThrowableClass(registry: Registry, className: string): (r: Conversion<Kind>)
    ensures r.Converted? <==> className in registry && IsThrowable(registry[className])
    ensures r.Converted? ==> r.value.lineage == registry[className]
    ensures r.Rejected? ==> r.error.className == className
    ensures r.Rejected? ==> (r.error.ClassNotFound? <==> className !in registry)
  {
    if className !in registry then Rejected(ClassNotFound(className))
    else if IsThrowable(registry[className]) then Converted(Kind(registry[className]))
    else Rejected(NotThrowable(className))
  }

  /** Every error message starts with "Class " followed by the class name, so
      a caller can tell which configured name was rejected. */
  lemma MessageNamesClass(e: ConfigError)
    ensures "Class " + e.className <= e.Message()
  {
    var p := "Class " + e.className;
    match e
    case ClassNotFound(n) =>
      assert e.Message() == p + " not found";
    case NotThrowable(n) =>
      assert e.Message() == p + " is not a subclass of java.lang.Throwable";
  }

  /** Converts a (possibly null) list of names in order. A null or empty list
      gives the empty list; the first name that does not convert aborts the
      whole conversion, so no partial list is ever returned. */
  method ThrowableList(registry: Registry, classNames: Option<seq<string>>) returns (r: Conversion<seq<Kind>>)
    ensures classNames.None? ==> r == Converted([])
    ensures r.Converted? <==>
              (classNames.None? ||
               forall i :: 0 <= i < |classNames.value| ==> ConvertToThrowableClass(registry, classNames.value[i]).Converted?)
    ensures r.Converted? && classNames.Some? ==>
              |r.value| == |classNames.value| &&
              forall i :: 0 <= i < |r.value| ==> ConvertToThrowableClass(registry, classNames.value[i]) == Converted(r.value[i])
    ensures r.Rejected? ==>
              classNames.Some? &&
              exists i :: 0 <= i < |classNames.value| &&
                          ConvertToThrowableClass(registry, classNames.value[i]) == Rejected(r.error) &&
                          forall j :: 0 <= j < i ==> ConvertToThrowableClass(registry, classNames.value[j]).Converted?
  {
    var classes: seq<Kind> := [];
    if classNames.Some? {
      var names := classNames.value;
      var i := 0;
      while i < |names|
        invariant i <= |names| && |classes| == i
        invariant forall j :: 0 <= j < i ==> ConvertToThrowableClass(registry, names[j]) == Converted(classes[j])
      {
        var c := ConvertToThrowableClass(registry, names[i]);
        if c.Rejected? {
          return Rejected(c.error);
        }
        classes := classes + [c.value];
        i := i + 1;
      }
    }
    return Converted(classes);
  }
}
