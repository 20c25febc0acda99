/**
  * The interface texts in Ukrainian and English, and the two lookups the
  * components use: `t` for one string and `tList` for a list of lines.
  * The React context and the language switch are not modelled beyond the
  * language they hold.
  */
module Language {
  import opened Text

  datatype Lang = Uk | En

  /** The language a session starts in. */
  const DefaultLanguage := Uk

  /** A table entry: one text, or a list of lines. */
  datatype Translation = Text(s: string) | List(items: seq<string>)

  /** The Ukrainian texts. */
  const UkTable: map<string, Translation> := map[
    "app.title" := Text("Якщо коротко"),
    "app.subtitle" := List(["Тут ти можеш транскрибувати аудіо/відео файл", "Задати питання по змісту", "Сформувати конспект"]),
    "upload.placeholder" := Text("Перетягніть файл або вставте URL сюди"),
    "upload.dragActive" := Text("Відпустіть файл тут..."),
    "upload.browse" := Text("Оберіть файл"),
    "upload.or" := Text("або"),
    "upload.analyze" := Text("Аналізувати"),
    "upload.analyzing" := Text("Аналізую..."),
    "upload.supportedFormats" := Text("Підтримувані формати: MP4, MKV, MOV, WebM, MP3, WAV, M4A"),
    "processing.analyzing" := Text("Аналізуємо ваш контент"),
    "results.ready" := Text("Ваш контент готовий"),
    "results.downloadTranscript" := Text("Завантажити повний текст"),
    "results.downloadSummary" := Text("Завантажити резюме"),
    "results.askQuestions" := Text("Задати питання"),
    "chat.title" := Text("Запитайте про ваш контент"),
    "chat.inputPlaceholder" := Text("Введіть ваше питання..."),
    "chat.back" := Text("Назад"),
    "chat.suggestion1" := Text("Підсумуй у 5 пунктах"),
    "chat.suggestion2" := Text("Які основні ідеї?"),
    "chat.suggestion3" := Text("Поясни як для 12-річного"),
    "header.newAnalysis" := Text("Новий аналіз"),
    "toast.downloadingTranscript" := Text("Завантаження транскрипту"),
    "toast.downloadingTranscriptDesc" := Text("Ваш повний транскрипт буде готовий незабаром."),
    "toast.generatingSummary" := Text("Генерування резюме"),
    "toast.generatingSummaryDesc" := Text("Ваше резюме буде готове незабаром."),
    "preview.transcript" := Text("Транскрипт"),
    "preview.summary" := Text("Резюме"),
    "preview.download" := Text("Завантажити"),
    "preview.loading" := Text("Завантаження..."),
    "preview.empty" := Text("Немає даних для попереднього перегляду."),
    "history.title" := Text("Історія"),
    "history.subtitle" := Text("Останні результати (цей браузер)"),
    "history.clear" := Text("Очистити"),
    "history.empty" := Text("Історії ще немає. Завантажте аудіо файл, щоб почати."),
    "history.current" := Text("поточний")
  ]

  /** The English texts. */
  const EnTable: map<string, Translation> := map[
    "app.title" := Text("Long Story Short AI"),
    "app.subtitle" := List(["Transcribe any audio or video", "Ask questions about the content", "Generate a summary"]),
    "upload.placeholder" := Text("Drop file or paste URL here"),
    "upload.dragActive" := Text("Drop the file here..."),
    "upload.browse" := Text("Browse files"),
    "upload.or" := Text("or"),
    "upload.analyze" := Text("Analyze"),
    "upload.analyzing" := Text("Analyzing..."),
    "upload.supportedFormats" := Text("Supported formats: MP4, MKV, MOV, WebM, MP3, WAV, M4A"),
    "processing.analyzing" := Text("Analyzing your content"),
    "results.ready" := Text("Your content is ready"),
    "results.downloadTranscript" := Text("Download Full Transcript"),
    "results.downloadSummary" := Text("Download Summary"),
    "results.askQuestions" := Text("Ask Questions"),
    "chat.title" := Text("Ask about your content"),
    "chat.inputPlaceholder" := Text("Type your question..."),
    "chat.back" := Text("Back"),
    "chat.suggestion1" := Text("Summarize in 5 bullets"),
    "chat.suggestion2" := Text("What are the main ideas?"),
    "chat.suggestion3" := Text("Explain like I'm 12"),
    "header.newAnalysis" := Text("New analysis"),
    "toast.downloadingTranscript" := Text("Downloading transcript"),
    "toast.downloadingTranscriptDesc" := Text("Your full transcript will be ready shortly."),
    "toast.generatingSummary" := Text("Generating summary"),
    "toast.generatingSummaryDesc" := Text("Your summary will be ready shortly."),
    "preview.transcript" := Text("Transcript"),
    "preview.summary" := Text("Summary"),
    "preview.download" := Text("Download"),
    "preview.loading" := Text("Loading..."),
    "preview.empty" := Text("Nothing to preview yet."),
    "history.title" := Text("History"),
    "history.subtitle" := Text("Your recent analyses (this browser)"),
    "history.clear" := Text("Clear"),
    "history.empty" := Text("No history yet. Upload an audio file to start."),
    "history.current" := Text("current")
  ]

  function Table(lang: Lang): map<string, Translation> {
    match lang
    case Uk => UkTable
    case En => EnTable
  }

  /** `t`: a text as it is, a list of lines joined with spaces, and the key
      itself for a key the table does not have. */
  function T(lang: Lang, key: string): string {
    if key !in Table(lang) then key
    else match Table(lang)[key]
      case Text(s) => s
      case List(items) => Join(items, " ")
  }

  /** `tList`: a list of lines as it is, a text as a list of one, and the
      key alone for a key the table does not have. */
  function TList(lang: Lang, key: string): seq<string> {
    if key !in Table(lang) then [key]
    else match Table(lang)[key]
      case Text(s) => [s]
      case List(items) => items
  }

  /** `t` is `tList` joined with spaces, for every key. */
  lemma TJoinsTList(lang: Lang, key: string)
    ensures T(lang, key) == Join(TList(lang, key), " ")
    ensures key !in Table(lang) ==> T(lang, key) == key && TList(lang, key) == [key]
  {
  }

  /** Both languages translate the same keys, so switching language never
      shows a key in place of a text. */
  lemma SameKeys()
    ensures UkTable.Keys == EnTable.Keys
    ensures forall key :: key in UkTable <==> key in EnTable
  {
  }

  /** The list-valued keys are the same in both languages. */
  lemma SameShapes()
    ensures forall key :: key in UkTable ==> (UkTable[key].List? <==> EnTable[key].List?)
  {
  }

  /** The subtitle is three lines in either language. */
  lemma SubtitleLines(lang: Lang)
    ensures |TList(lang, "app.subtitle")| == 3
  {
  }
}
