/**
 * `bind_stream`: the Lua-facing `Stream` type (a `YR_STREAM`) and the read
 * and write trampolines it installs, through which libyara pulls or pushes
 * a serialised rule set. `user_data` carries the Lua function the
 * trampolines call; `lua` is what that function returns when called.
 */
module Stream {
  import opened Wrappers
  import opened LibYara
  import opened Errors
  import opened Lua

  /** `size * count` in `size_t` arithmetic, which wraps modulo 2^64. */
  function TotalSize(size: SizeT, count: SizeT): (total: SizeT)
    ensures size * count < SIZE_MODULUS ==> total == size * count
    ensures total <= size * count
  {
    WrapAtMost(size, count);
    (size * count) % SIZE_MODULUS
  }

  lemma WrapAtMost(a: nat, b: nat)
    ensures 0 <= a * b
    ensures 0 <= (a * b) % SIZE_MODULUS < SIZE_MODULUS
    ensures (a * b) % SIZE_MODULUS <= a * b
    ensures a * b < SIZE_MODULUS ==> (a * b) % SIZE_MODULUS == a * b
  {
    var x := a * b;
    assert 0 <= x;
  }

  /** `std::min(total_size, data.size())`: how many bytes the read copies. */
  function BytesRead(total: SizeT, data: seq<Byte>): (n: SizeT)
    ensures n <= total && n <= |data|
    ensures n == total || n == |data|
  {
    if total <= |data| then total else |data|
  }

  /** `bytes_read / size`: the whole elements read, never more than were asked for. */
  function ElementsRead(size: SizeT, count: SizeT, n: SizeT): (k: SizeT)
    requires size > 0 && n <= TotalSize(size, count)
    ensures k <= count
    ensures k * size <= n < (k + 1) * size
  {
    DivisionBounds(size, count, n);
    n / size
  }

  lemma DivisionBounds(size: SizeT, count: SizeT, n: SizeT)
    requires size > 0 && n <= TotalSize(size, count)
    ensures n / size <= count
    ensures (n / size) * size <= n < (n / size + 1) * size
  {
    var k := n / size;
    assert n == k * size + n % size;
    assert (k + 1) * size == k * size + size;
    assert (count + 1) * size == count * size + size;
    if k > count {
      MulMonotone(count + 1, k, size);
    }
  }

  lemma MulMonotone(a: nat, b: nat, c: nat)
    requires a <= b
    ensures a * c <= b * c
  {
    assert b * c == a * c + (b - a) * c;
  }

  /**
   * The read trampoline: ask the Lua function for exactly `size * count`
   * bytes, copy at most that many of the returned bytes into `ptr` (leaving
   * the rest of `ptr` as it was) and return the whole elements copied. A null
   * `user_data` or a Lua error throws `Runtime`.
   */
  method ReadTrampoline(ptr: array<Byte>, size: SizeT, count: SizeT, userData: Option<LuaFunction>,
                        lua: (LuaFunction, SizeT) -> Reply<seq<Byte>>)
    returns (r: Result<SizeT, Error>)
    requires size > 0
    requires TotalSize(size, count) <= ptr.Length
    modifies ptr
    ensures userData.None? ==> r == Failure(Runtime) && ptr[..] == old(ptr[..])
    ensures userData.Some? ==>
      var reply := lua(userData.value, TotalSize(size, count));
      if reply.Raised? then r == Failure(Runtime) && ptr[..] == old(ptr[..])
      else
        var n := BytesRead(TotalSize(size, count), reply.value);
        && r == Success(ElementsRead(size, count, n))
        && ptr[..n] == reply.value[..n]
        && ptr[n..] == old(ptr[n..])
  {
    if userData.None? {
      return Failure(Runtime);
    }
    var total := TotalSize(size, count);
    var reply := lua(userData.value, total);
    if reply.Raised? {
      return Failure(Runtime);
    }
    var data := reply.value;
    var n := BytesRead(total, data);
    forall i | 0 <= i < n {
      ptr[i] := data[i];
    }
    assert ptr[..n] == data[..n];
    r := Success(ElementsRead(size, count, n));
  }

  /**
   * The write trampoline: hand the Lua function exactly the first
   * `size * count` bytes of `ptr` and report all `count` elements written.
   * A null `user_data` or a Lua error throws `Runtime`.
   */
  method WriteTrampoline(ptr: array<Byte>, size: SizeT, count: SizeT, userData: Option<LuaFunction>,
                         lua: (LuaFunction, seq<Byte>) -> Reply<()>)
    returns (r: Result<SizeT, Error>)
    requires TotalSize(size, count) <= ptr.Length
    ensures r.Failure? <==>
      userData.None? || lua(userData.value, ptr[..TotalSize(size, count)]).Raised?
    ensures r.Failure? ==> r.error == Runtime
    ensures r.Success? ==> r.value == count
  {
    if userData.None? {
      return Failure(Runtime);
    }
    var total := TotalSize(size, count);
    var data := ptr[..total];
    var reply := lua(userData.value, data);
    if reply.Raised? {
      return Failure(Runtime);
    }
    return Success(count);
  }

  /**
   * A `YR_STREAM` as Lua sees it: one `user_data` slot shared by both
   * directions, and whether the read and write trampolines are installed.
   */
  class YrStream {
    var userData: Option<LuaFunction>
    var hasReader: bool
    var hasWriter: bool

    /** `Stream.new()`: a value-initialised `YR_STREAM`. */
    constructor ()
      ensures userData.None? && !hasReader && !hasWriter
    {
      userData, hasReader, hasWriter := None, false, false;
    }

    /** `stream.read = func`: overwrite `user_data` and install the read trampoline. */
    method BindRead(func: LuaFunction)
      modifies this
      ensures userData == Some(func) && hasReader && hasWriter == old(hasWriter)
    {
      userData := Some(func);
      hasReader := true;
    }

    /** `stream.write = func`: overwrite `user_data` and install the write trampoline. */
    method BindWrite(func: LuaFunction)
      modifies this
      ensures userData == Some(func) && hasWriter && hasReader == old(hasReader)
    {
      userData := Some(func);
      hasWriter := true;
    }

    /** libyara pulling from the stream: the read trampoline with this stream's `user_data`. */
    method Read(ptr: array<Byte>, size: SizeT, count: SizeT, lua: (LuaFunction, SizeT) -> Reply<seq<Byte>>)
      returns (r: Result<SizeT, Error>)
      requires hasReader && userData.Some?
      requires size > 0 && TotalSize(size, count) <= ptr.Length
      modifies ptr
      ensures lua(userData.value, TotalSize(size, count)).Raised? <==> r.Failure?
      ensures r.Failure? ==> r.error == Runtime && ptr[..] == old(ptr[..])
      ensures r.Success? ==>
        var data := lua(userData.value, TotalSize(size, count)).value;
        var n := BytesRead(TotalSize(size, count), data);
        && r.value == ElementsRead(size, count, n)
        && ptr[..n] == data[..n]
        && ptr[n..] == old(ptr[n..])
    {
      r := ReadTrampoline(ptr, size, count, userData, lua);
    }
  }

  /**
   * Binding `read` and then `write` on one stream leaves the write function
   * in `user_data`, so a later read calls the write function and copies the
   * bytes it returns.
   */
  method LastBindingWins(read: LuaFunction, write: LuaFunction, ptr: array<Byte>, size: SizeT, count: SizeT,
                         lua: (LuaFunction, SizeT) -> Reply<seq<Byte>>)
    returns (s: YrStream, r: Result<SizeT, Error>)
    requires size > 0 && TotalSize(size, count) <= ptr.Length
    modifies ptr
    ensures s.userData == Some(write) && s.hasReader && s.hasWriter
    ensures r.Failure? <==> lua(write, TotalSize(size, count)).Raised?
    ensures r.Failure? ==> ptr[..] == old(ptr[..])
    ensures r.Success? ==>
      var data := lua(write, TotalSize(size, count)).value;
      var n := BytesRead(TotalSize(size, count), data);
      && r.value == ElementsRead(size, count, n)
      && ptr[..n] == data[..n]
      && ptr[n..] == old(ptr[n..])
  {
    s := new YrStream();
    s.BindRead(read);
    s.BindWrite(write);
    r := s.Read(ptr, size, count, lua);
  }
}
