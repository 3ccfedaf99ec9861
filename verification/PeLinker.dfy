/** Loading a Windows driver image (pe_linker.c): expansion to the section alignment, and base
    relocation. */
module PeLinker {
  type Byte = x: int | 0 <= x < 256

  const U32: int := 0x1_0000_0000
  const U64: int := 0x1_0000_0000_0000_0000

  datatype Errno = ENOMEM | EINVAL | EOPNOTSUPP

  // ------------------------------------------------------------------- expansion

  /** The fields of IMAGE_SECTION_HEADER that matter here: VirtualAddress, PointerToRawData and
      SizeOfRawData. */
  datatype Section = Section(va: u32, raw: u32, size: u32)

  type u32 = x: int | 0 <= x < 0x1_0000_0000

  predicate Covers(s: Section, x: int) {
    s.va <= x < s.va + s.size
  }

  /** The raw data of the sections lies inside the file. */
  predicate Readable(sections: seq<Section>, fileSize: nat) {
    forall i :: 0 <= i < |sections| ==> sections[i].raw + sections[i].size <= fileSize
  }

  /** The byte at address x of the loaded image: of the last section that covers x, of the headers,
      or zero. */
  function Loaded(file: seq<Byte>, headers: nat, sections: seq<Section>, x: nat): Byte
    requires Readable(sections, |file|) && headers <= |file|
  {
    if sections == [] then (if x < headers then file[x] else 0)
    else
      var s := sections[|sections| - 1];
      if Covers(s, x) then file[s.raw + (x - s.va)]
      else Loaded(file, headers, sections[..|sections| - 1], x)
  }

  ghost predicate Disjoint(sections: seq<Section>) {
    forall i, j, x :: 0 <= i < j < |sections| && Covers(sections[i], x) ==> !Covers(sections[j], x)
  }

  /** For disjoint sections the order does not matter: each byte is the one its section maps there,
      a header byte outside all sections, and zero elsewhere. */
  lemma {:induction false} LoadedDisjoint(file: seq<Byte>, headers: nat, sections: seq<Section>, x: nat)
    requires Readable(sections, |file|) && headers <= |file| && Disjoint(sections)
    ensures forall i :: 0 <= i < |sections| && Covers(sections[i], x) ==>
              Loaded(file, headers, sections, x) == file[sections[i].raw + (x - sections[i].va)]
    ensures (forall i :: 0 <= i < |sections| ==> !Covers(sections[i], x)) ==>
              Loaded(file, headers, sections, x) == if x < headers then file[x] else 0
  {
    if sections != [] {
      var n := |sections| - 1;
      LoadedDisjoint(file, headers, sections[..n], x);
      forall i | 0 <= i < |sections| && Covers(sections[i], x)
        ensures Loaded(file, headers, sections, x) == file[sections[i].raw + (x - sections[i].va)]
      {
        if i < n {
          assert sections[..n][i] == sections[i];
        }
      }
    }
  }

  /** The test of the copy loop, on 32-bit fields. */
  predicate Fits(s: Section, imageSize: nat) {
    (s.va + s.size) % U32 <= imageSize
  }

  /** The test accepts exactly the sections that lie inside the image if and only if the end of the
      section does not wrap around 32 bits, or wraps to a place beyond the image; for all image sizes
      if and only if it does not wrap. */
  lemma FitsExactly(s: Section, imageSize: u32)
    ensures (Fits(s, imageSize) <==> s.va + s.size <= imageSize)
       <==> !(U32 <= s.va + s.size <= U32 + imageSize)
    ensures (forall n: u32 :: Fits(s, n) <==> s.va + s.size <= n) <==> s.va + s.size < U32
  {
    if s.va + s.size >= U32 {
      assert (s.va + s.size) % U32 == s.va + s.size - U32;
      assert Fits(s, U32 - 1) && !(s.va + s.size <= U32 - 1);
    } else {
      assert (s.va + s.size) % U32 == s.va + s.size;
    }
  }

  /** A section that is accepted and then copied out of bounds. */
  lemma FitsWrapped()
    ensures var s := Section(0xFFFF_F000, 0, 0x2000);
            Fits(s, 0x1000) && s.va + s.size > 0x1000
  {
    assert (0xFFFF_F000 + 0x2000) % U32 == 0x1000;
  }

  /** The copy loop reaches section i. */
  predicate Reaches(sections: seq<Section>, i: int, imageSize: nat)
    requires 0 <= i < |sections|
  {
    forall k :: 0 <= k <= i ==> Fits(sections[k], imageSize)
  }

  /** What the code does not check, of the sections that it copies: the raw data lies in the file, and
      the section in the image. */
  predicate Sound(sections: seq<Section>, fileSize: nat, imageSize: nat) {
    forall i :: 0 <= i < |sections| && Reaches(sections, i, imageSize) ==>
      sections[i].raw + sections[i].size <= fileSize && sections[i].va + sections[i].size <= imageSize
  }

  /** fix_pe_image. The caller vouches for Sound, and for the headers being inside both images. */
  method FixPeImage(file: array<Byte>, headers: nat, sections: seq<Section>, imageSize: u32, memory: bool)
    returns (image: array?<Byte>, error: Errno)
    requires headers <= file.Length && headers <= imageSize && Sound(sections, file.Length, imageSize)
    ensures file.Length == imageSize ==> image == file
    ensures file.Length != imageSize ==>
              (image == null <==> !memory || exists i :: 0 <= i < |sections| && !Fits(sections[i], imageSize))
    ensures image == null ==> error == if !memory then ENOMEM else EINVAL
    ensures image != null && image != file ==>
              fresh(image) && image.Length == imageSize && Readable(sections, file.Length)
    ensures image != null && image != file ==>
              forall x :: 0 <= x < imageSize ==> image[x] == Loaded(file[..], headers, sections, x)
  {
    error := EINVAL;
    if file.Length == imageSize {
      image := file;
    } else if !memory {
      image, error := null, ENOMEM;
    } else {
      image := Expand(file, headers, sections, imageSize);
    }
  }

  method CopySection(image: array<Byte>, file: array<Byte>, s: Section)
    requires image != file && s.va + s.size <= image.Length && s.raw + s.size <= file.Length
    modifies image
    ensures forall x :: 0 <= x < image.Length ==>
              image[x] == if Covers(s, x) then file[s.raw + (x - s.va)] else old(image[x])
  {
    forall x | s.va <= x < s.va + s.size {
      image[x] := file[s.raw + (x - s.va)];
    }
  }

  method Expand(file: array<Byte>, headers: nat, sections: seq<Section>, imageSize: u32)
    returns (image: array?<Byte>)
    requires headers <= file.Length && headers <= imageSize && Sound(sections, file.Length, imageSize)
    ensures image == null <==> exists i :: 0 <= i < |sections| && !Fits(sections[i], imageSize)
    ensures image != null ==> fresh(image) && image.Length == imageSize && Readable(sections, file.Length)
    ensures image != null ==>
              forall x :: 0 <= x < imageSize ==> image[x] == Loaded(file[..], headers, sections, x)
  {
    var img := new Byte[imageSize](_ => 0);
    forall x | 0 <= x < headers {
      img[x] := file[x];
    }
    var i := 0;
    while i < |sections|
      invariant 0 <= i <= |sections|
      invariant forall k :: 0 <= k < i ==> Fits(sections[k], imageSize)
      invariant Readable(sections[..i], file.Length)
      invariant forall x :: 0 <= x < imageSize ==> img[x] == Loaded(file[..], headers, sections[..i], x)
    {
      var s := sections[i];
      if (s.va + s.size) % U32 > imageSize {
        return null;
      }
      assert Reaches(sections, i, imageSize);
      CopySection(img, file, s);
      assert sections[..i + 1][..i] == sections[..i] && sections[..i + 1][i] == s;
      i := i + 1;
    }
    assert sections[..i] == sections;
    image := img;
  }
}
