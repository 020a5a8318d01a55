/**
 * The attachment body codec. An uploaded file is sent as a chat message whose body is
 * `[IMAGE]:<url>` for images and `[FILE]:<name>|<url>` otherwise; both consoles render a
 * body by testing these prefixes and splitting on `|`.
 */
module Attachments {
  import opened Wrappers
  import opened Text

  const ImageTag: string := "[IMAGE]:"
  const FileTag: string := "[FILE]:"

  /** `file.type.startsWith('image/')`. */
  predicate IsImageType(mime: string) {
    StartsWith(mime, "image/")
  }

  /** The body sent for an uploaded file of the given MIME type, name and public URL. */
  function Encode(mime: string, name: string, url: string): string {
    if IsImageType(mime) then ImageTag + url else FileTag + name + "|" + url
  }

  /** A file picked for upload: its name and MIME type. */
  datatype PickedFile = PickedFile(name: string, mime: string)

  /** What a rendered body shows: an image, a file link (its href may be `undefined`), or text. */
  datatype Body = Image(src: string) | File(name: string, href: Option<string>) | Plain(text: string)

  /**
   * The rendering decision: `startsWith('[IMAGE]:')` then `replace('[IMAGE]:', '')`;
   * else `startsWith('[FILE]:')` then name `split('|')[0].replace('[FILE]:', '')` and
   * href `split('|')[1]`; else the text itself.
   */
  function Decode(contenido: string): Body {
    if StartsWith(contenido, ImageTag) then Image(RemoveFirst(contenido, ImageTag))
    else if StartsWith(contenido, FileTag) then
      var parts := Split(contenido, '|');
      File(RemoveFirst(parts[0], FileTag), if |parts| > 1 then Some(parts[1]) else None)
    else Plain(contenido)
  }

  /** An image body always decodes back to its URL, whatever the URL contains. */
  lemma ImageRoundTrip(mime: string, name: string, url: string)
    requires IsImageType(mime)
    ensures Decode(Encode(mime, name, url)) == Image(url)
  {
    assert (ImageTag + url)[..|ImageTag|] == ImageTag;
    RemoveFirstPrefix(ImageTag, url);
  }

  /** A file body decodes back to its name and URL when neither contains `|`. */
  lemma FileRoundTrip(mime: string, name: string, url: string)
    requires !IsImageType(mime)
    requires '|' !in name && '|' !in url
    ensures Decode(Encode(mime, name, url)) == File(name, Some(url))
  {
    var s := Encode(mime, name, url);
    var head := FileTag + name;
    assert s == head + ['|'] + url;
    assert s[1] == 'F';
    assert !StartsWith(s, ImageTag);
    assert s[..|FileTag|] == FileTag;
    assert '|' !in head;
    SplitCons(head, '|', url);
    SplitNone(url, '|');
    RemoveFirstPrefix(FileTag, name);
  }

  /** A file body as the file-link branch shows it. */
  lemma DecodeFileBody(s: string)
    requires StartsWith(s, FileTag)
    ensures Decode(s).File? && Decode(s).name == RemoveFirst(Split(s, '|')[0], FileTag)
  {
    assert s[1] == 'F';
  }

  /**
   * A file name that contains `|` is not recovered: the decoded name is the part of the
   * name before its first `|`, and the link is taken from what follows that `|`.
   */
  lemma FileNameWithBarIsCut(mime: string, name: string, url: string)
    requires !IsImageType(mime)
    requires '|' in name
    ensures Decode(Encode(mime, name, url)).File?
    ensures Decode(Encode(mime, name, url)).name == name[..FirstIndex(name, '|')]
    ensures Decode(Encode(mime, name, url)).href == Some(Split(name[FirstIndex(name, '|') + 1..] + "|" + url, '|')[0])
  {
    var k := FirstIndex(name, '|');
    var a, b := name[..k], name[k + 1..];
    assert name == a + ['|'] + b;
    assert Encode(mime, name, url) == FileTag + a + ['|'] + (b + "|" + url);
    DecodeFileParts(a, b + "|" + url);
  }

  /** A file body whose name piece `a` has no `|` decodes to `a` and the next piece. */
  lemma DecodeFileParts(a: string, rest: string)
    requires '|' !in a
    ensures Decode(FileTag + a + ['|'] + rest) == File(a, Some(Split(rest, '|')[0]))
  {
    var s := FileTag + a + ['|'] + rest;
    assert s[1] == 'F';
    assert s[..|FileTag|] == FileTag;
    assert '|' !in FileTag + a;
    SplitCons(FileTag + a, '|', rest);
    RemoveFirstPrefix(FileTag, a);
  }

  /** A body with neither tag is shown as text, unchanged. */
  lemma PlainBody(contenido: string)
    requires !StartsWith(contenido, ImageTag) && !StartsWith(contenido, FileTag)
    ensures Decode(contenido) == Plain(contenido)
  {
  }
}
