/**
 * `lib/LanguageContext.tsx`: the English and Vietnamese string tables, the `t` lookup with
 * its fall-back to the key, the provider's initial language and the `useLanguage` guard. The
 * React state holding the current language is a parameter.
 */
module LanguageContext {
  import opened Wrappers
  import opened JsRuntime

  datatype Language = En | Vi

  /** The provider starts in Vietnamese. */
  const InitialLanguage: Language := Vi

  /** `translations.en`. */
  const EnTable: map<string, string> :=
    map[
      "menuTitle" := "Menu",
      "installApp" := "Install App",
      "signOut" := "Sign Out",
      "signInPrompt" := "Sign in to save your history and preferences.",
      "signIn" := "Sign In",
      "version" := "v1.0.0 • Pose How AI",
      "welcomeBack" := "Welcome Back",
      "signInContinue" := "Sign in to continue to Pose How AI",
      "continueGoogle" := "Continue with Google",
      "startCamera" := "Start Camera",
      "terms" := "By signing in, you agree to our Terms of Service and Privacy Policy.",
      "alertImageFile" := "Please select an image file.",
      "analyzing" := "Analyzing image...",
      "geminiThinking" := "Gemini is reviewing your lighting and composition",
      "connectionFailed" := "Connection failed",
      "connectionError" := "Weak signal or Server overloaded.",
      "tryAgain" := "Try Again",
      "autoRotate" := "Supports Auto-Rotate Canvas",
      "takePhoto" := "📸 Take Photo",
      "gallery" := "🖼️ Gallery",
      "retake" := "🔄 Retake",
      "viewSamples" := "🖼️ Generate Pose",
      "analyze" := "✨ Analyze",
      "openCamera" := "Open Camera",
      "photoTips" := "💡 Photography Tips",
      "lighting" := "☀️ Lighting",
      "subject" := "🧍 Subject",
      "techSpecs" := "⚙️ Technical Specs",
      "serverError" := "Cannot connect to server.",
      "sampleGalleryTitle" := "Reference Poses",
      "aiGenerating" := "AI is generating pose...",
      "aiGeneratingTime" := "Usually takes 7-10 seconds",
      "backToCamera" := "Back to Camera",
      "pageTitle" := "How WOW! Pose",
      "pageSubtitle" := "Suggestion on you",
      "supportProject" := "Support the Project",
      "donateUSDT" := "Donate via USDT",
      "send" := "Send",
      "httpsRequired" := "HTTPS connection required for camera operation.",
      "paypal" := "PayPal"
    ]

  /** `translations.vi`. */
  const ViTable: map<string, string> :=
    map[
      "menuTitle" := "Menu",
      "installApp" := "Cài đặt ứng dụng",
      "signOut" := "Đăng xuất",
      "signInPrompt" := "Đăng nhập để lưu lịch sử và tùy chọn của bạn.",
      "signIn" := "Đăng nhập",
      "version" := "v1.0.0 • Pose How AI",
      "welcomeBack" := "Chào mừng trở lại",
      "signInContinue" := "Đăng nhập để tiếp tục với Pose How AI",
      "continueGoogle" := "Tiếp tục với Google",
      "startCamera" := "Bắt đầu Camera",
      "terms" := "Bằng cách đăng nhập, bạn đồng ý với Điều khoản dịch vụ và Chính sách quyền riêng tư của chúng tôi.",
      "alertImageFile" := "Vui lòng chọn tệp hình ảnh.",
      "analyzing" := "Đang phân tích ảnh...",
      "geminiThinking" := "Gemini đang xem xét ánh sáng và bố cục của bạn",
      "connectionFailed" := "Kết nối thất bại",
      "connectionError" := "Sóng yếu hoặc Server quá tải.",
      "tryAgain" := "Thử lại",
      "autoRotate" := "Hỗ trợ Auto-Rotate Canvas",
      "takePhoto" := "📸 Chụp Ảnh",
      "gallery" := "🖼️ Thư viện",
      "retake" := "🔄 Làm lại",
      "viewSamples" := "🖼️ Tạo mẫu",
      "analyze" := "✨ Phân tích",
      "openCamera" := "Mở Camera",
      "photoTips" := "💡 Hướng dẫn chụp đẹp",
      "lighting" := "☀️ Ánh sáng",
      "subject" := "🧍 Chủ thể",
      "techSpecs" := "⚙️ Thông số kỹ thuật",
      "serverError" := "Không thể kết nối đến server.",
      "sampleGalleryTitle" := "Hình mẫu tham khảo",
      "aiGenerating" := "AI đang vẽ dáng người...",
      "aiGeneratingTime" := "Thường mất khoảng 7-10 giây",
      "backToCamera" := "Quay lại chụp ảnh",
      "pageTitle" := "Chụp Sao Cho Đẹp nè!",
      "pageSubtitle" := "Giúp nhanh case khó.",
      "supportProject" := "Hỗ trợ dự án",
      "donateUSDT" := "Ủng hộ qua USDT",
      "send" := "Gửi",
      "httpsRequired" := "Yêu cầu kết nối HTTPS để hoạt động camera.",
      "paypal" := "PayPal"
    ]

  /** `translations[language]`. */
  function Table(language: Language): map<string, string>
  {
    match language
    case En => EnTable
    case Vi => ViTable
  }

  /**
   * `t(key)`: the current language's entry for `key` when it is present and non-empty,
   * otherwise `key` itself.
   */
  function T(language: Language, key: string): (r: string)
    ensures r == key || r in Table(language).Values
    ensures r == "" ==> key == ""
  {
    if key in Table(language) && Table(language)[key] != "" then Table(language)[key] else key
  }

  /** The two tables translate exactly the same keys. */
  lemma SameKeys()
    ensures EnTable.Keys == ViTable.Keys
  {
    assert forall k :: k in EnTable <==> k in ViTable;
  }

  /** Every entry of both tables is non-empty text that differs from its own key. */
  lemma EntriesAreText(language: Language)
    ensures forall k :: k in Table(language) ==> Table(language)[k] != "" && Table(language)[k] != k
  {
    if language == En {
      EnEntriesAreText();
    } else {
      ViEntriesAreText();
    }
  }

  lemma EnEntriesAreText()
    ensures forall k :: k in EnTable ==> EnTable[k] != "" && EnTable[k] != k
  {
  }

  lemma ViEntriesAreText()
    ensures forall k :: k in ViTable ==> ViTable[k] != "" && ViTable[k] != k
  {
  }

  /**
   * `t` falls back to the key exactly when the key has no entry, and that does not depend on
   * the language.
   */
  lemma FallbackExactly(language: Language, key: string)
    ensures T(language, key) == key <==> key !in EnTable
    ensures key !in EnTable ==> T(En, key) == T(Vi, key) == key
  {
    SameKeys();
    EntriesAreText(language);
  }

  /** A present key translates to its entry. */
  lemma HitReturnsEntry(language: Language, key: string)
    requires key in Table(language)
    ensures T(language, key) == Table(language)[key]
  {
    EntriesAreText(language);
  }

  /** The analyse button under a freshly mounted provider reads in Vietnamese. */
  lemma InitialLanguageExample()
    ensures T(InitialLanguage, "analyze") == "✨ Phân tích"
  {
  }

  /** An unknown key comes back as itself. */
  lemma UnknownKeyExample()
    ensures T(Vi, "noSuchKey") == "noSuchKey"
  {
    assert "noSuchKey" !in ViTable;
  }

  // ---------------------------------------------------------------------------------------
  // The lookup as written: a property read on a plain object literal.
  // ---------------------------------------------------------------------------------------

  /**
   * The names every object literal inherits from `Object.prototype`; a property read on a
   * translation table finds these even though the table does not define them.
   */
  const ObjectPrototypeMembers: set<string> := {
    "constructor", "__defineGetter__", "__defineSetter__", "hasOwnProperty", "__lookupGetter__",
    "__lookupSetter__", "isPrototypeOf", "propertyIsEnumerable", "toString", "valueOf",
    "__proto__", "toLocaleString"
  }

  /** What `translations[language][key]` evaluates to. */
  datatype Property = Own(text: string) | Inherited(name: string) | Absent

  function ReadProperty(table: map<string, string>, key: string): Property
  {
    if key in table then Own(table[key])
    else if key in ObjectPrototypeMembers then Inherited(key)
    else Absent
  }

  /**
   * `translations[language][key] || key` as the code evaluates it: own text when non-empty, an
   * inherited member (a function, or the prototype object for `__proto__`, both truthy) as is,
   * otherwise the key.
   */
  function TAsWritten(language: Language, key: string): (r: Property)
    ensures r.Own? || r.Inherited?
    ensures r.Inherited? <==> key !in Table(language) && key in ObjectPrototypeMembers
  {
    match ReadProperty(Table(language), key)
    case Own(s) => if s != "" then Own(s) else Own(key)
    case Inherited(name) => Inherited(name)
    case Absent => Own(key)
  }

  /** The discrepancy: `t("toString")` yields `Object.prototype.toString`, not a string. */
  lemma TAsWrittenReturnsInheritedMember()
    ensures TAsWritten(InitialLanguage, "toString") == Inherited("toString")
    ensures T(InitialLanguage, "toString") == "toString"
  {
  }

  /** Away from the inherited names, the lookup as written and the corrected `T` agree. */
  lemma TAsWrittenAgreesElsewhere(language: Language, key: string)
    requires key !in ObjectPrototypeMembers
    ensures TAsWritten(language, key) == Own(T(language, key))
  {
  }

  // ---------------------------------------------------------------------------------------
  // The context.
  // ---------------------------------------------------------------------------------------

  /** The value the provider publishes: the current language and `t` over it. */
  datatype LanguageContextValue = LanguageContextValue(language: Language)
  {
    function Translate(key: string): string
    {
      T(language, key)
    }
  }

  /** A freshly mounted provider. */
  const InitialContext: LanguageContextValue := LanguageContextValue(InitialLanguage)

  const OutsideProviderMessage: string := "useLanguage must be used within a LanguageProvider"

  /**
   * `useLanguage()`: the nearest provider's value, or an `Error` when there is no provider
   * (`context` is `None`, the context's `undefined` default).
   */
  function UseLanguage(context: Option<LanguageContextValue>): (r: Result<LanguageContextValue, JsError>)
    ensures r.Err? <==> context.None?
    ensures r.Ok? ==> r.value == context.value
    ensures r.Err? ==> r.error == JsError("Error", OutsideProviderMessage)
  {
    match context
    case None => Err(JsError("Error", OutsideProviderMessage))
    case Some(value) => Ok(value)
  }

  /** Under a freshly mounted provider, `useLanguage().t` translates into Vietnamese. */
  lemma FreshProviderSpeaksVietnamese(key: string)
    ensures UseLanguage(Some(InitialContext)).Ok?
    ensures UseLanguage(Some(InitialContext)).value.Translate(key) == T(Vi, key)
  {
  }
}
