/**
 * The in-memory behaviour of kv.js's `JsonKvStore`: a JavaScript object
 * `_obj` of parsed JSON values, read and written through the byte codec of
 * utils.js, whose `delete` removes ONE exact key (unlike index.js's store).
 * The codec and `JSON.parse` of the store file are the class's parameters;
 * writing the file back (`persist`) is not modelled.
 */
module JsonStore {
  import opened Wrappers
  import opened Bytes
  import opened Json
  import opened Strings
  import opened Store

  /** The text the constructor parses: the file's text, or `'{}'` when there is none or it is empty. */
  function InitialText(fileText: Option<string>): (text: string)
    ensures fileText == None || fileText == Some("") ==> text == "{}"
    ensures fileText.Some? && fileText.value != "" ==> text == fileText.value
  {
    if fileText.None? || fileText.value == "" then "{}" else fileText.value
  }

  class JsonKvStore {
    var obj: map<string, Json>
    var order: seq<string>
    /** Whether the `ready` promise resolves: it does not when the file's text fails to parse. */
    var ready: bool
    /** utils.js `encode`: `JSON.stringify` then UTF-8. */
    const encode: Json -> seq<byte>
    /** utils.js `decode`: UTF-8 then `JSON.parse`, which fails (throws) on malformed input. */
    const decode: seq<byte> -> Option<Json>

    ghost predicate Valid()
      reads this
    {
      Distinct(order) && forall k :: k in order <==> k in obj
    }

    /**
     * `new JsonKvStore(opt)` once the file has been read: `fileText` is what
     * `fs.readFile` gave (`None` when it threw), `parseObject` is `JSON.parse`
     * of a store file, which yields an object or fails.
     */
    constructor (fileText: Option<string>, parseObject: string -> Option<map<string, Json>>,
                 encode: Json -> seq<byte>, decode: seq<byte> -> Option<Json>)
      requires parseObject("{}") == Some(map[])
      ensures Valid()
      ensures this.encode == encode && this.decode == decode
      ensures obj == (if parseObject(InitialText(fileText)).Some? then parseObject(InitialText(fileText)).value else map[])
      ensures ready == parseObject(InitialText(fileText)).Some?
      ensures fileText == None || fileText == Some("") ==> obj == map[] && ready
    {
      this.encode := encode;
      this.decode := decode;
      var parsed := parseObject(InitialText(fileText));
      if parsed.Some? {
        var keys := EnumerateKeys(parsed.value.Keys);
        obj, order, ready := parsed.value, keys, true;
      } else {
        obj, order, ready := map[], [], false;
      }
    }

    /** `get(key)`: the encoded value, or an empty byte array when the key is absent or its value falsy. */
    function Get(key: string): (r: seq<byte>)
      reads this
      ensures key !in obj || !Truthy(obj[key]) ==> r == []
      ensures key in obj && Truthy(obj[key]) ==> r == encode(obj[key])
    {
      if key in obj && Truthy(obj[key]) then encode(obj[key]) else []
    }

    /**
     * `set(key, value)`: stores `decode(value)` under `key` and leaves every
     * other key alone; when `decode` throws nothing changes and `ok` is false.
     */
    method Set(key: string, value: seq<byte>) returns (ok: bool)
      requires Valid()
      modifies this
      ensures Valid() && ready == old(ready)
      ensures ok <==> decode(value).Some?
      ensures ok ==> obj == old(obj)[key := decode(value).value]
      ensures ok ==> order == if key in old(obj) then old(order) else old(order) + [key]
      ensures !ok ==> obj == old(obj) && order == old(order)
      ensures ok ==> Get(key) == if Truthy(decode(value).value) then encode(decode(value).value) else []
    {
      var decoded := decode(value);
      if decoded.None? {
        return false;
      }
      if key !in obj {
        order := order + [key];
      }
      obj := obj[key := decoded.value];
      ok := true;
    }

    /** `list(prefix)`: exactly the KEYS that start with `prefix`, each once, in key order. */
    function List(prefix: string): (r: seq<string>)
      reads this
      requires Valid()
      ensures Distinct(r)
      ensures forall k :: k in r <==> k in obj && StartsWith(k, prefix)
    {
      WithPrefixKeys(order, prefix);
      WithPrefix(order, prefix)
    }

    /** `delete(key)`: removes exactly `key` and nothing else. */
    method Delete(key: string)
      requires Valid()
      modifies this
      ensures Valid() && ready == old(ready)
      ensures obj == old(obj) - {key}
      ensures order == Without(old(order), key)
    {
      WithoutDistinctMembers(order, key);
      obj := obj - {key};
      order := Without(order, key);
    }
  }
}
