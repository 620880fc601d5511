/**
  The bounded copy of a library's name into the fixed-size `so_name` and
  `so_original_name` buffers of a shared-object node: `strncpy` of at most
  `SO_NAME_MAX_PATH_SIZE - 1` characters followed by a terminating NUL in
  the buffer's last slot.

  A name is a C byte string: each character of a `string` here stands for one
  byte (`char`) of the source's buffers, so every length counts bytes.
 */
module SoName {

  /** Size of the name buffers of a shared-object node (defined in solist.h). */
  const SO_NAME_MAX_PATH_SIZE: nat := 512

  function Min(a: nat, b: nat): (m: nat)
  {
    if a < b then a else b
  }

  /** `n` NUL characters. */
  function Nuls(n: nat): (r: string)
    ensures |r| == n && forall i :: 0 <= i < n ==> r[i] == '\0'
  {
    seq(n, _ => '\0')
  }

  /** What a C reader of `s` sees: the characters before the first NUL. */
  function CString(s: string): (r: string)
    ensures |r| <= |s|
    ensures forall i :: 0 <= i < |r| ==> r[i] == s[i] && r[i] != '\0'
    ensures |r| < |s| ==> s[|r|] == '\0'
  {
    if s == [] || s[0] == '\0' then [] else [s[0]] + CString(s[1..])
  }

  /**
    `strncpy(dst, src, n)`: copies the C string `src` into `n` characters,
    cutting it at `n` and padding what is left with NULs.
   */
  function StrNCpy(src: string, n: nat): (dst: string)
    ensures |dst| == n
    ensures forall i :: 0 <= i < n ==> dst[i] == if i < |CString(src)| then src[i] else '\0'
  {
    if n == 0 then []
    else if src == [] || src[0] == '\0' then Nuls(n)
    else [src[0]] + StrNCpy(src[1..], n - 1)
  }

  /** The contents of `so_name` (and `so_original_name`) after the copy. */
  function SoNameBuffer(name: string): (buf: string)
    ensures |buf| == SO_NAME_MAX_PATH_SIZE && buf[SO_NAME_MAX_PATH_SIZE - 1] == '\0'
  {
    StrNCpy(name, SO_NAME_MAX_PATH_SIZE - 1) + ['\0']
  }

  /** A C string read back from a NUL-free prefix followed by a NUL is that prefix. */
  lemma {:induction false} CStringOfTerminated(p: string, rest: string)
    requires '\0' !in p && rest != [] && rest[0] == '\0'
    ensures CString(p + rest) == p
  {
    if p != [] {
      assert (p + rest)[1..] == p[1..] + rest;
      CStringOfTerminated(p[1..], rest);
    }
  }

  /**
    The name a node reports is the library's name cut to at most
    `SO_NAME_MAX_PATH_SIZE - 1` characters; a shorter NUL-free name is kept
    whole.
   */
  lemma SoNameIsBoundedCopy(name: string)
    ensures var c := CString(name);
            CString(SoNameBuffer(name)) == c[..Min(|c|, SO_NAME_MAX_PATH_SIZE - 1)]
    ensures '\0' !in name ==>
              CString(SoNameBuffer(name)) == name[..Min(|name|, SO_NAME_MAX_PATH_SIZE - 1)]
  {
    var c := CString(name);
    var n := SO_NAME_MAX_PATH_SIZE - 1;
    var m := Min(|c|, n);
    var buf := SoNameBuffer(name);
    var p := c[..m];
    assert buf == p + buf[m..];
    assert '\0' !in p by {
      forall i | 0 <= i < |p| ensures p[i] != '\0' {
        assert p[i] == c[i];
      }
    }
    CStringOfTerminated(p, buf[m..]);
    if '\0' !in name {
      CStringOfNulFree(name);
    }
  }

  lemma {:induction false} CStringOfNulFree(s: string)
    requires '\0' !in s
    ensures CString(s) == s
  {
    if s != [] {
      CStringOfNulFree(s[1..]);
    }
  }
}
