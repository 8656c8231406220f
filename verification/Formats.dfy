/**
 * The preset format strings of `libproduct::format` (libproduct/src/lib.rs),
 * and each of them taken apart into its literal text and its `{KEY}`
 * placeholders.
 */
module Formats {
  // ---------------------------------------------------------------------
  // The preset format strings of the `format` module
  // ---------------------------------------------------------------------

  const SHORT := "{NAME} v{VERSION}"
  const DEFAULT := "{NAME} v{VERSION} ({GIT_REF}@{GIT_HASH})"
  /** The only one with the dirty marker; note there is no space before it. */
  const DEFAULT_DIRTY := "{NAME} v{VERSION} ({GIT_REF}@{GIT_HASH}{GIT_DIRTY_STAR})"
  const LONG := "{NAME} v{VERSION} | {GIT_REF}@{GIT_HASH} | {BUILD_HOST} ({BUILD_OS} {BUILD_OS_VERSION})"
  const FULL := "{NAME} v{VERSION} | {GIT_REF}@{GIT_HASH} {GIT_DIRTY} | {GIT_AUTHOR} | {BUILD_HOST} ({BUILD_OS_LONG} {BUILD_ARCH})"
  /** Usable as a User-Agent header value. */
  const USER_AGENT := "{NAME}/{VERSION} ({BUILD_OS}; {BUILD_ARCH})"
  const GIT_REF_SHORT := "{GIT_REF}@{GIT_HASH}"

  // ---------------------------------------------------------------------
  // Each preset as the concatenation of its pieces
  // ---------------------------------------------------------------------

  /** `SHORT` is its literal text and placeholders, in order. */
  lemma ShortText()
    ensures "{NAME}" + " v" + "{VERSION}" == SHORT
  {
    assert "{NAME}" + " v" == "{NAME} v";
    assert "{NAME} v" + "{VERSION}" == "{NAME} v{VERSION}";
  }

  /** `DEFAULT` is its literal text and placeholders, in order. */
  lemma DefaultText()
    ensures "{NAME}" + " v" + "{VERSION}" + " (" + "{GIT_REF}" + "@" + "{GIT_HASH}" + ")" == DEFAULT
  {
    assert "{NAME}" + " v" == "{NAME} v";
    assert "{NAME} v" + "{VERSION}" == "{NAME} v{VERSION}";
    assert "{NAME} v{VERSION}" + " (" == "{NAME} v{VERSION} (";
    assert "{NAME} v{VERSION} (" + "{GIT_REF}" == "{NAME} v{VERSION} ({GIT_REF}";
    assert "{NAME} v{VERSION} ({GIT_REF}" + "@" == "{NAME} v{VERSION} ({GIT_REF}@";
    assert "{NAME} v{VERSION} ({GIT_REF}@" + "{GIT_HASH}" == "{NAME} v{VERSION} ({GIT_REF}@{GIT_HASH}";
    assert "{NAME} v{VERSION} ({GIT_REF}@{GIT_HASH}" + ")" == "{NAME} v{VERSION} ({GIT_REF}@{GIT_HASH})";
  }

  lemma DefaultDirtyText1()
    ensures "{NAME}" + " v" + "{VERSION}" + " (" + "{GIT_REF}" + "@" + "{GIT_HASH}" + "{GIT_DIRTY_STAR}" == "{NAME} v{VERSION} ({GIT_REF}@{GIT_HASH}{GIT_DIRTY_STAR}"
  {
    assert "{NAME}" + " v" == "{NAME} v";
    assert "{NAME} v" + "{VERSION}" == "{NAME} v{VERSION}";
    assert "{NAME} v{VERSION}" + " (" == "{NAME} v{VERSION} (";
    assert "{NAME} v{VERSION} (" + "{GIT_REF}" == "{NAME} v{VERSION} ({GIT_REF}";
    assert "{NAME} v{VERSION} ({GIT_REF}" + "@" == "{NAME} v{VERSION} ({GIT_REF}@";
    assert "{NAME} v{VERSION} ({GIT_REF}@" + "{GIT_HASH}" == "{NAME} v{VERSION} ({GIT_REF}@{GIT_HASH}";
    assert "{NAME} v{VERSION} ({GIT_REF}@{GIT_HASH}" + "{GIT_DIRTY_STAR}" == "{NAME} v{VERSION} ({GIT_REF}@{GIT_HASH}{GIT_DIRTY_STAR}";
  }

  lemma DefaultDirtyText2()
    ensures "{NAME} v{VERSION} ({GIT_REF}@{GIT_HASH}{GIT_DIRTY_STAR}" + ")" == "{NAME} v{VERSION} ({GIT_REF}@{GIT_HASH}{GIT_DIRTY_STAR})"
  {
  }

  /** `DEFAULT_DIRTY` is its literal text and placeholders, in order. */
  lemma DefaultDirtyText()
    ensures "{NAME}" + " v" + "{VERSION}" + " (" + "{GIT_REF}" + "@" + "{GIT_HASH}" + "{GIT_DIRTY_STAR}" + ")" == DEFAULT_DIRTY
  {
    DefaultDirtyText1();
    DefaultDirtyText2();
  }

  /** The opening `LONG` and `FULL` share: name, version, branch and hash. */
  lemma RefLineText()
    ensures "{NAME}" + " v" + "{VERSION}" + " | " + "{GIT_REF}" + "@" + "{GIT_HASH}" == "{NAME} v{VERSION} | {GIT_REF}@{GIT_HASH}"
  {
    assert "{NAME}" + " v" == "{NAME} v";
    assert "{NAME} v" + "{VERSION}" == "{NAME} v{VERSION}";
    assert "{NAME} v{VERSION}" + " | " == "{NAME} v{VERSION} | ";
    assert "{NAME} v{VERSION} | " + "{GIT_REF}" == "{NAME} v{VERSION} | {GIT_REF}";
    assert "{NAME} v{VERSION} | {GIT_REF}" + "@" == "{NAME} v{VERSION} | {GIT_REF}@";
    assert "{NAME} v{VERSION} | {GIT_REF}@" + "{GIT_HASH}" == "{NAME} v{VERSION} | {GIT_REF}@{GIT_HASH}";
  }

  lemma LongText1()
    ensures "{NAME}" + " v" + "{VERSION}" + " | " + "{GIT_REF}" + "@" + "{GIT_HASH}" + " | " + "{BUILD_HOST}" == "{NAME} v{VERSION} | {GIT_REF}@{GIT_HASH} | {BUILD_HOST}"
  {
    RefLineText();
    assert "{NAME} v{VERSION} | {GIT_REF}@{GIT_HASH}" + " | " == "{NAME} v{VERSION} | {GIT_REF}@{GIT_HASH} | ";
    assert "{NAME} v{VERSION} | {GIT_REF}@{GIT_HASH} | " + "{BUILD_HOST}" == "{NAME} v{VERSION} | {GIT_REF}@{GIT_HASH} | {BUILD_HOST}";
  }

  lemma LongText2()
    ensures "{NAME} v{VERSION} | {GIT_REF}@{GIT_HASH} | {BUILD_HOST}" + " (" + "{BUILD_OS}" == "{NAME} v{VERSION} | {GIT_REF}@{GIT_HASH} | {BUILD_HOST} ({BUILD_OS}"
  {
    assert "{NAME} v{VERSION} | {GIT_REF}@{GIT_HASH} | {BUILD_HOST}" + " (" == "{NAME} v{VERSION} | {GIT_REF}@{GIT_HASH} | {BUILD_HOST} (";
    assert "{NAME} v{VERSION} | {GIT_REF}@{GIT_HASH} | {BUILD_HOST} (" + "{BUILD_OS}" == "{NAME} v{VERSION} | {GIT_REF}@{GIT_HASH} | {BUILD_HOST} ({BUILD_OS}";
  }

  lemma LongText3()
    ensures "{NAME} v{VERSION} | {GIT_REF}@{GIT_HASH} | {BUILD_HOST} ({BUILD_OS}" + " " == "{NAME} v{VERSION} | {GIT_REF}@{GIT_HASH} | {BUILD_HOST} ({BUILD_OS} "
  {
  }

  lemma LongText4()
    ensures "{NAME} v{VERSION} | {GIT_REF}@{GIT_HASH} | {BUILD_HOST} ({BUILD_OS} " + "{BUILD_OS_VERSION}" == "{NAME} v{VERSION} | {GIT_REF}@{GIT_HASH} | {BUILD_HOST} ({BUILD_OS} {BUILD_OS_VERSION}"
  {
  }

  lemma LongText5()
    ensures "{NAME} v{VERSION} | {GIT_REF}@{GIT_HASH} | {BUILD_HOST} ({BUILD_OS} {BUILD_OS_VERSION}" + ")" == "{NAME} v{VERSION} | {GIT_REF}@{GIT_HASH} | {BUILD_HOST} ({BUILD_OS} {BUILD_OS_VERSION})"
  {
  }

  /** `LONG` is its literal text and placeholders, in order. */
  lemma LongText()
    ensures "{NAME}" + " v" + "{VERSION}" + " | " + "{GIT_REF}" + "@" + "{GIT_HASH}" + " | " + "{BUILD_HOST}" + " (" + "{BUILD_OS}" + " " + "{BUILD_OS_VERSION}" + ")" == LONG
  {
    LongText1();
    LongText2();
    LongText3();
    LongText4();
    LongText5();
  }

  lemma FullText1()
    ensures "{NAME}" + " v" + "{VERSION}" + " | " + "{GIT_REF}" + "@" + "{GIT_HASH}" + " " + "{GIT_DIRTY}" == "{NAME} v{VERSION} | {GIT_REF}@{GIT_HASH} {GIT_DIRTY}"
  {
    RefLineText();
    assert "{NAME} v{VERSION} | {GIT_REF}@{GIT_HASH}" + " " == "{NAME} v{VERSION} | {GIT_REF}@{GIT_HASH} ";
    assert "{NAME} v{VERSION} | {GIT_REF}@{GIT_HASH} " + "{GIT_DIRTY}" == "{NAME} v{VERSION} | {GIT_REF}@{GIT_HASH} {GIT_DIRTY}";
  }

  lemma FullText2()
    ensures "{NAME} v{VERSION} | {GIT_REF}@{GIT_HASH} {GIT_DIRTY}" + " | " + "{GIT_AUTHOR}" == "{NAME} v{VERSION} | {GIT_REF}@{GIT_HASH} {GIT_DIRTY} | {GIT_AUTHOR}"
  {
    assert "{NAME} v{VERSION} | {GIT_REF}@{GIT_HASH} {GIT_DIRTY}" + " | " == "{NAME} v{VERSION} | {GIT_REF}@{GIT_HASH} {GIT_DIRTY} | ";
    assert "{NAME} v{VERSION} | {GIT_REF}@{GIT_HASH} {GIT_DIRTY} | " + "{GIT_AUTHOR}" == "{NAME} v{VERSION} | {GIT_REF}@{GIT_HASH} {GIT_DIRTY} | {GIT_AUTHOR}";
  }

  lemma FullText3()
    ensures "{NAME} v{VERSION} | {GIT_REF}@{GIT_HASH} {GIT_DIRTY} | {GIT_AUTHOR}" + " | " == "{NAME} v{VERSION} | {GIT_REF}@{GIT_HASH} {GIT_DIRTY} | {GIT_AUTHOR} | "
  {
  }

  lemma FullText4()
    ensures "{NAME} v{VERSION} | {GIT_REF}@{GIT_HASH} {GIT_DIRTY} | {GIT_AUTHOR} | " + "{BUILD_HOST}" == "{NAME} v{VERSION} | {GIT_REF}@{GIT_HASH} {GIT_DIRTY} | {GIT_AUTHOR} | {BUILD_HOST}"
  {
  }

  lemma FullText5()
    ensures "{NAME} v{VERSION} | {GIT_REF}@{GIT_HASH} {GIT_DIRTY} | {GIT_AUTHOR} | {BUILD_HOST}" + " (" == "{NAME} v{VERSION} | {GIT_REF}@{GIT_HASH} {GIT_DIRTY} | {GIT_AUTHOR} | {BUILD_HOST} ("
  {
  }

  lemma FullText6()
    ensures "{NAME} v{VERSION} | {GIT_REF}@{GIT_HASH} {GIT_DIRTY} | {GIT_AUTHOR} | {BUILD_HOST} (" + "{BUILD_OS_LONG}" == "{NAME} v{VERSION} | {GIT_REF}@{GIT_HASH} {GIT_DIRTY} | {GIT_AUTHOR} | {BUILD_HOST} ({BUILD_OS_LONG}"
  {
  }

  lemma FullText7()
    ensures "{NAME} v{VERSION} | {GIT_REF}@{GIT_HASH} {GIT_DIRTY} | {GIT_AUTHOR} | {BUILD_HOST} ({BUILD_OS_LONG}" + " " == "{NAME} v{VERSION} | {GIT_REF}@{GIT_HASH} {GIT_DIRTY} | {GIT_AUTHOR} | {BUILD_HOST} ({BUILD_OS_LONG} "
  {
  }

  lemma FullText8()
    ensures "{NAME} v{VERSION} | {GIT_REF}@{GIT_HASH} {GIT_DIRTY} | {GIT_AUTHOR} | {BUILD_HOST} ({BUILD_OS_LONG} " + "{BUILD_ARCH}" == "{NAME} v{VERSION} | {GIT_REF}@{GIT_HASH} {GIT_DIRTY} | {GIT_AUTHOR} | {BUILD_HOST} ({BUILD_OS_LONG} {BUILD_ARCH}"
  {
  }

  lemma FullText9()
    ensures "{NAME} v{VERSION} | {GIT_REF}@{GIT_HASH} {GIT_DIRTY} | {GIT_AUTHOR} | {BUILD_HOST} ({BUILD_OS_LONG} {BUILD_ARCH}" + ")" == "{NAME} v{VERSION} | {GIT_REF}@{GIT_HASH} {GIT_DIRTY} | {GIT_AUTHOR} | {BUILD_HOST} ({BUILD_OS_LONG} {BUILD_ARCH})"
  {
  }

  /** `FULL` is its literal text and placeholders, in order. */
  lemma FullText()
    ensures "{NAME}" + " v" + "{VERSION}" + " | " + "{GIT_REF}" + "@" + "{GIT_HASH}" + " " + "{GIT_DIRTY}" + " | " + "{GIT_AUTHOR}" + " | " + "{BUILD_HOST}" + " (" + "{BUILD_OS_LONG}" + " " + "{BUILD_ARCH}" + ")" == FULL
  {
    FullText1();
    FullText2();
    FullText3();
    FullText4();
    FullText5();
    FullText6();
    FullText7();
    FullText8();
    FullText9();
  }

  /** `USER_AGENT` is its literal text and placeholders, in order. */
  lemma UserAgentText()
    ensures "{NAME}" + "/" + "{VERSION}" + " (" + "{BUILD_OS}" + "; " + "{BUILD_ARCH}" + ")" == USER_AGENT
  {
    assert "{NAME}" + "/" == "{NAME}/";
    assert "{NAME}/" + "{VERSION}" == "{NAME}/{VERSION}";
    assert "{NAME}/{VERSION}" + " (" == "{NAME}/{VERSION} (";
    assert "{NAME}/{VERSION} (" + "{BUILD_OS}" == "{NAME}/{VERSION} ({BUILD_OS}";
    assert "{NAME}/{VERSION} ({BUILD_OS}" + "; " == "{NAME}/{VERSION} ({BUILD_OS}; ";
    assert "{NAME}/{VERSION} ({BUILD_OS}; " + "{BUILD_ARCH}" == "{NAME}/{VERSION} ({BUILD_OS}; {BUILD_ARCH}";
    assert "{NAME}/{VERSION} ({BUILD_OS}; {BUILD_ARCH}" + ")" == "{NAME}/{VERSION} ({BUILD_OS}; {BUILD_ARCH})";
  }

  /** `GIT_REF_SHORT` is its literal text and placeholders, in order. */
  lemma GitRefShortText()
    ensures "{GIT_REF}" + "@" + "{GIT_HASH}" == GIT_REF_SHORT
  {
    assert "{GIT_REF}" + "@" == "{GIT_REF}@";
    assert "{GIT_REF}@" + "{GIT_HASH}" == "{GIT_REF}@{GIT_HASH}";
  }
}
